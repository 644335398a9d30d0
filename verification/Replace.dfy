/** Leftmost non-overlapping replacement, and the loop that computes it. */
module Replace {

  predicate Starts(text: string, part: string) {
    |part| <= |text| && text[..|part|] == part
  }

  /** Reading left to right, every occurrence of `from` that begins after the
      one before it is replaced. */
  function Replaced(text: string, from: string, to: string): string
    requires |from| > 0
    decreases |text|
  {
    if |text| == 0 then []
    else if Starts(text, from) then to + Replaced(text[|from|..], from, to)
    else [text[0]] + Replaced(text[1..], from, to)
  }

  datatype Rule = Rule(from: string, to: string)

  /** One rule after the other; an empty pattern is passed over. */
  function ReplacedAll(text: string, rules: seq<Rule>): string {
    if |rules| == 0 then text else
      var before, last := ReplacedAll(text, rules[..|rules| - 1]), rules[|rules| - 1];
      if |last.from| == 0 then before else Replaced(before, last.from, last.to)
  }

  // ----- The loop ----------------------------------------------------------

  predicate FoundAt(text: string, from: string, i: nat) {
    i <= |text| && Starts(text[i..], from)
  }

  /** The first occurrence at or after the offset. */
  method Find(text: string, from: string, offset: nat) returns (found: bool, at: nat)
    requires |from| > 0 && offset <= |text|
    ensures found ==> offset <= at && at + |from| <= |text| && FoundAt(text, from, at)
    ensures found ==> forall i :: offset <= i < at ==> !FoundAt(text, from, i)
    ensures !found ==> forall i :: offset <= i <= |text| ==> !FoundAt(text, from, i)
  {
    at := offset;
    while at + |from| <= |text|
      invariant offset <= at <= |text|
      invariant forall i :: offset <= i < at ==> !FoundAt(text, from, i)
    {
      if text[at..at + |from|] == from {
        assert text[at..][..|from|] == text[at..at + |from|];
        return true, at;
      }
      assert !FoundAt(text, from, at) by {
        assert text[at..][..|from|] == text[at..at + |from|];
      }
      at := at + 1;
    }
    found := false;
  }

  lemma {:induction false} CopiesUntil(text: string, from: string, to: string, offset: nat, at: nat)
    requires |from| > 0 && offset <= at <= |text|
    requires forall i :: offset <= i < at ==> !FoundAt(text, from, i)
    ensures Replaced(text[offset..], from, to) == text[offset..at] + Replaced(text[at..], from, to)
    decreases at - offset
  {
    if offset == at {
      assert text[offset..at] == [];
    } else {
      assert !FoundAt(text, from, offset);
      assert text[offset..][1..] == text[offset + 1..];
      CopiesUntil(text, from, to, offset + 1, at);
      assert text[offset..at] == [text[offset]] + text[offset + 1..at];
    }
  }

  method ReplaceOne(value: string, from: string, to: string) returns (output: string)
    requires |from| > 0
    ensures output == Replaced(value, from, to)
  {
    hide Replaced, FoundAt;
    output := [];
    var offset := 0;
    var found, at := Find(value, from, 0);
    assert value[0..] == value;
    while found
      invariant offset <= |value|
      invariant Replaced(value, from, to) == output + Replaced(value[offset..], from, to)
      invariant found ==> offset <= at && at + |from| <= |value| && FoundAt(value, from, at)
      invariant found ==> forall i :: offset <= i < at ==> !FoundAt(value, from, i)
      invariant !found ==> forall i :: offset <= i <= |value| ==> !FoundAt(value, from, i)
      decreases |value| - offset
    {
      CopiesUntil(value, from, to, offset, at);
      CutsAt(value, from, to, at);
      Regroup(output, value[offset..at], to, Replaced(value[at + |from|..], from, to));
      output := output + value[offset..at] + to;
      offset := at + |from|;
      found, at := Find(value, from, offset);
    }
    CopiesUntil(value, from, to, offset, |value|);
    NothingLeft(from, to);
    assert value[|value|..] == [];
    assert value[offset..|value|] == value[offset..];
    output := output + value[offset..];
  }

  lemma {:induction false} NothingLeft(from: string, to: string)
    requires |from| > 0
    ensures Replaced([], from, to) == []
  {
  }

  lemma {:induction false} CutsAt(text: string, from: string, to: string, at: nat)
    requires |from| > 0 && FoundAt(text, from, at)
    ensures at + |from| <= |text|
    ensures Replaced(text[at..], from, to) == to + Replaced(text[at + |from|..], from, to)
  {
    assert text[at..][|from|..] == text[at + |from|..];
  }

  lemma {:induction false} Regroup<T>(a: seq<T>, b: seq<T>, c: seq<T>, d: seq<T>)
    ensures a + (b + (c + d)) == a + b + c + d
  {
  }

  method ReplaceBytes(input: string, rules: seq<Rule>) returns (value: string)
    ensures value == ReplacedAll(input, rules)
  {
    value := input;
    for i := 0 to |rules|
      invariant value == ReplacedAll(input, rules[..i])
    {
      assert rules[..i + 1][..i] == rules[..i];
      if |rules[i].from| > 0 {
        value := ReplaceOne(value, rules[i].from, rules[i].to);
      }
    }
    assert rules[..|rules|] == rules;
  }

  // ----- Blocks a pattern cannot start in ----------------------------------

  lemma {:induction false} StartsNot(text: string, part: string)
    requires |part| > 0 && (|text| == 0 || text[0] != part[0])
    ensures !Starts(text, part)
  {
    if |part| <= |text| {
      assert text[..|part|][0] == text[0];
    }
  }

  /** A block without the pattern's first character is copied. */
  lemma {:induction false} CopiesBlock(block: string, rest: string, from: string, to: string)
    requires |from| > 0 && forall i :: 0 <= i < |block| ==> block[i] != from[0]
    ensures Replaced(block + rest, from, to) == block + Replaced(rest, from, to)
  {
    if |block| == 0 {
      assert block + rest == rest;
    } else {
      assert (block + rest)[1..] == block[1..] + rest;
      StartsNot(block + rest, from);
      CopiesBlock(block[1..], rest, from, to);
      assert block == [block[0]] + block[1..];
    }
  }

  lemma {:induction false} ReplacesHead(from: string, rest: string, to: string)
    requires |from| > 0
    ensures Replaced(from + rest, from, to) == to + Replaced(rest, from, to)
  {
    assert (from + rest)[..|from|] == from && (from + rest)[|from|..] == rest;
  }

  lemma {:induction false} CopiesHead(c: char, rest: string, from: string, to: string)
    requires |from| > 0 && !Starts([c] + rest, from)
    ensures Replaced([c] + rest, from, to) == [c] + Replaced(rest, from, to)
  {
    assert ([c] + rest)[1..] == rest;
  }
}
