/**
 The access journal as text: one line for every publication and every hit,
 read incrementally while a collection runs, and compacted when it ends.
 */
module Journal {
  import opened Results
  import Seqs

  const U64_MAX: nat := 0xFFFF_FFFF_FFFF_FFFF
  const CONTENT_KEY_LEN: nat := 64

  datatype Entry = Entry(key: string, action: string, ms: nat)

  // ----- One line ----------------------------------------------------------

  predicate IsDigit(c: char) { '0' <= c <= '9' }

  predicate ValidKey(s: string) {
    |s| == CONTENT_KEY_LEN && forall i :: 0 <= i < |s| ==> IsDigit(s[i]) || 'a' <= s[i] <= 'f'
  }

  /** The first position of `c`, or the length. */
  function IndexOf(s: string, c: char): (i: nat)
    ensures i <= |s| && (i < |s| ==> s[i] == c)
    ensures forall j :: 0 <= j < i ==> s[j] != c
  {
    if s == [] || s[0] == c then 0 else 1 + IndexOf(s[1..], c)
  }

  /** `str::split` on one character: never empty. */
  function Split(s: string, c: char): (r: seq<string>)
    ensures r != []
    decreases |s|
  {
    var i := IndexOf(s, c);
    if i == |s| then [s] else [s[..i]] + Split(s[i + 1..], c)
  }

  function ParseDigits(s: string): Option<nat> {
    if s == [] then Some(0) else
      match ParseDigits(s[..|s| - 1])
      case None => None
      case Some(n) =>
        var c := s[|s| - 1];
        if IsDigit(c) then Some(10 * n + (c as int - '0' as int)) else None
  }

  /** `u64::from_str`: an optional plus sign, then digits that fit. */
  function ParseU64(s: string): Option<nat> {
    var digits := if s != [] && s[0] == '+' then s[1..] else s;
    if digits == [] then None else
      match ParseDigits(digits)
      case None => None
      case Some(n) => if n <= U64_MAX then Some(n) else None
  }

  function ParseLine(line: string): seq<Entry> {
    var fields := Split(line, ' ');
    if |fields| == 3 && ValidKey(fields[0]) && ValidKey(fields[1]) && ParseU64(fields[2]).Some?
    then [Entry(fields[0], fields[1], ParseU64(fields[2]).value)]
    else []
  }

  // ----- Whole texts -------------------------------------------------------

  /** `str::lines` ends a line at a newline and drops one carriage return
      before it; the last line may lack its newline. */
  function FirstLine(text: string): string {
    var n := IndexOf(text, '\n');
    if 0 < n < |text| && text[n - 1] == '\r' then text[..n - 1] else text[..n]
  }

  function AfterFirstLine(text: string): string {
    var n := IndexOf(text, '\n');
    if n < |text| then text[n + 1..] else []
  }

  function Lines(text: string): seq<string>
    decreases |text|
  {
    if text == [] then [] else [FirstLine(text)] + Lines(AfterFirstLine(text))
  }

  function EntriesOf(lines: seq<string>): seq<Entry> {
    if lines == [] then [] else EntriesOf(lines[..|lines| - 1]) + ParseLine(lines[|lines| - 1])
  }

  function Entries(text: string): seq<Entry> {
    EntriesOf(Lines(text))
  }

  predicate Whole(text: string) {
    text == [] || text[|text| - 1] == '\n'
  }

  lemma {:induction false} IndexOfIn(a: string, b: string, c: char)
    requires IndexOf(a, c) < |a|
    ensures IndexOf(a + b, c) == IndexOf(a, c)
  {
    if a[0] != c {
      IndexOfIn(a[1..], b, c);
      assert (a + b)[1..] == a[1..] + b;
    }
  }

  lemma {:induction false} FirstLineIn(a: string, b: string)
    requires Whole(a) && a != []
    ensures FirstLine(a + b) == FirstLine(a)
    ensures AfterFirstLine(a + b) == AfterFirstLine(a) + b
    ensures Whole(AfterFirstLine(a)) && |AfterFirstLine(a)| < |a|
  {
    var n := IndexOf(a, '\n');
    IndexOfIn(a, b, '\n');
    assert (a + b)[..n] == a[..n];
    assert n > 0 ==> (a + b)[..n - 1] == a[..n - 1];
    assert (a + b)[n + 1..] == a[n + 1..] + b;
  }

  lemma {:induction false} LinesConcat(a: string, b: string)
    requires Whole(a)
    ensures Lines(a + b) == Lines(a) + Lines(b)
    decreases |a|
  {
    if a == [] {
      Seqs.Empty(b);
      Seqs.Empty(Lines(b));
    } else {
      FirstLineIn(a, b);
      LinesConcat(AfterFirstLine(a), b);
      Seqs.Assoc([FirstLine(a)], Lines(AfterFirstLine(a)), Lines(b));
    }
  }

  lemma {:induction false} TakeLast<T>(a: seq<T>, b: seq<T>)
    requires b != []
    ensures (a + b)[..|a + b| - 1] == a + b[..|b| - 1] && (a + b)[|a + b| - 1] == b[|b| - 1]
  {
  }

  lemma {:induction false} EntriesOfConcat(a: seq<string>, b: seq<string>)
    ensures EntriesOf(a + b) == EntriesOf(a) + EntriesOf(b)
  {
    if b == [] {
      Seqs.Empty(a);
      Seqs.Empty(EntriesOf(a));
    } else {
      var rest, last := b[..|b| - 1], b[|b| - 1];
      EntriesOfConcat(a, rest);
      TakeLast(a, b);
      Seqs.Assoc(EntriesOf(a), EntriesOf(rest), ParseLine(last));
    }
  }

  /** Texts of whole lines parse independently of what follows. */
  lemma {:induction false} EntriesConcat(a: string, b: string)
    requires Whole(a)
    ensures Entries(a + b) == Entries(a) + Entries(b)
  {
    LinesConcat(a, b);
    EntriesOfConcat(Lines(a), Lines(b));
  }

  // ----- Incremental reading -----------------------------------------------

  /** The length of the longest prefix of whole lines. */
  function WholeLength(text: string): (n: nat)
    ensures n <= |text|
    ensures n == 0 || text[n - 1] == '\n'
    ensures forall i :: n <= i < |text| ==> text[i] != '\n'
  {
    if text == [] || text[|text| - 1] == '\n' then |text| else WholeLength(text[..|text| - 1])
  }

  lemma {:induction false} WholeLengthIs(text: string, n: nat)
    requires n <= |text| && (n == 0 || text[n - 1] == '\n') && forall i :: n <= i < |text| ==> text[i] != '\n'
    ensures WholeLength(text) == n
  {
    if text != [] && text[|text| - 1] != '\n' {
      WholeLengthIs(text[..|text| - 1], n);
    }
  }

  lemma {:induction false} NoUses()
    ensures Uses([]) == {}
  {
  }

  ghost function Uses(entries: seq<Entry>): set<(string, string)> {
    if entries == [] then {} else
      var last := entries[|entries| - 1];
      Uses(entries[..|entries| - 1]) + {(last.key, last.action)}
  }

  lemma {:induction false} UsesConcat(a: seq<Entry>, b: seq<Entry>)
    ensures Uses(a + b) == Uses(a) + Uses(b)
  {
    if b == [] {
      Seqs.Empty(a);
    } else {
      UsesConcat(a, b[..|b| - 1]);
      TakeLast(a, b);
    }
  }

  /** What has been published or reused, read from the journal as it grows. */
  class Reader {
    var offset: nat
    var uses: set<(string, string)>

    constructor ()
      ensures offset == 0 && uses == {}
    {
      offset, uses := 0, {};
    }

    /** Reads the whole lines appended since the last call, and only those. */
    method Refresh(text: string)
      requires offset <= |text|
      modifies this
      ensures offset == old(offset) + WholeLength(text[old(offset)..])
      ensures uses == old(uses) + Uses(Entries(text[old(offset)..offset]))
    {
      var end := LastNewline(text[offset..]);
      var bytes := text[offset..offset + end];
      offset := offset + end;
      ParseLines(bytes);
      assert text[old(offset)..offset] == bytes;
    }

    /** One past the last newline, or zero. */
    method LastNewline(bytes: string) returns (end: nat)
      ensures end == WholeLength(bytes)
    {
      end := |bytes|;
      while end > 0 && bytes[end - 1] != '\n'
        invariant 0 <= end <= |bytes|
        invariant forall i :: end <= i < |bytes| ==> bytes[i] != '\n'
      {
        end := end - 1;
      }
      WholeLengthIs(bytes, end);
    }

    method ParseLines(text: string)
      modifies this`uses
      ensures uses == old(uses) + Uses(Entries(text))
    {
      hide FirstLine, ParseLine, Uses;
      NoUses();
      var rest := text;
      ghost var done: seq<string> := [];
      while rest != []
        invariant done + Lines(rest) == Lines(text)
        invariant uses == old(uses) + Uses(EntriesOf(done))
        decreases |rest|
      {
        var line := FirstLine(rest);
        var entry := ParseLine(line);
        if entry != [] {
          uses := uses + {(entry[0].key, entry[0].action)};
        }
        OneMoreLine(done, rest);
        done := done + [line];
        rest := AfterFirstLine(rest);
      }
      Seqs.Empty(done);
    }
  }

  lemma {:induction false} OneMoreLine(done: seq<string>, rest: string)
    requires rest != []
    ensures done + [FirstLine(rest)] + Lines(AfterFirstLine(rest)) == done + Lines(rest)
    ensures var entry := ParseLine(FirstLine(rest));
      Uses(EntriesOf(done + [FirstLine(rest)])) == Uses(EntriesOf(done))
        + if entry == [] then {} else {(entry[0].key, entry[0].action)}
  {
    hide FirstLine, AfterFirstLine;
    var line, entry := FirstLine(rest), ParseLine(FirstLine(rest));
    UsesConcat(EntriesOf(done), entry);
    Seqs.Append(done, line);
    Seqs.Assoc(done, [line], Lines(AfterFirstLine(rest)));
    if entry != [] {
      assert entry[..0] == [];
    }
  }

  ghost predicate Grows(texts: seq<string>) {
    forall i :: 0 <= i < |texts| - 1 ==> texts[i] <= texts[i + 1]
  }

  /** What a parse of whole lines finds does not depend on what came before. */
  ghost predicate Additive<U(!new)>(parse: string -> set<U>) {
    parse([]) == {} && forall a, b {:trigger parse(a + b)} :: Whole(a) ==> parse(a + b) == parse(a) + parse(b)
  }

  /** Offset and findings after refreshing at each length the journal had. */
  ghost function Refreshing<U(!new)>(texts: seq<string>, parse: string -> set<U>, n: nat): (nat, set<U>)
    requires n <= |texts| && Grows(texts)
    ensures n > 0 ==> Refreshing(texts, parse, n).0 <= |texts[n - 1]|
    ensures n < |texts| ==> Refreshing(texts, parse, n).0 <= |texts[n]|
  {
    if n == 0 then (0, {}) else
      var (offset, found) := Refreshing(texts, parse, n - 1);
      var end := offset + WholeLength(texts[n - 1][offset..]);
      assert n < |texts| ==> texts[n - 1] <= texts[n];
      (end, found + parse(texts[n - 1][offset..end]))
  }

  lemma {:induction false} WholeLengthSkips(text: string, before: nat)
    requires before <= |text| && (before == 0 || text[before - 1] == '\n')
    ensures WholeLength(text) == before + WholeLength(text[before..])
  {
    var n := WholeLength(text[before..]);
    forall i | before + n <= i < |text|
      ensures text[i] != '\n'
    {
      assert text[i] == text[before..][i - before];
    }
    WholeLengthIs(text, before + n);
  }

  lemma {:induction false} PiecesAddUp<U(!new)>(texts: seq<string>, parse: string -> set<U>, n: nat)
    requires Grows(texts) && Additive(parse) && 0 < n <= |texts|
    ensures var (offset, found) := Refreshing(texts, parse, n);
      offset == WholeLength(texts[n - 1]) && found == parse(texts[n - 1][..offset])
  {
    hide WholeLength;
    var text := texts[n - 1];
    var (before, seen) := Refreshing(texts, parse, n - 1);
    if n > 1 {
      PiecesAddUp(texts, parse, n - 1);
      EarlierLines(texts[n - 2], text, before);
    } else {
      assert text[..0] == [];
    }
    hide Additive;
    WholeLengthSkips(text, before);
    OnePiece(text, parse, before, WholeLength(text));
  }

  /** The whole lines of an earlier text are whole lines of a later one. */
  lemma {:induction false} EarlierLines(early: string, late: string, before: nat)
    requires early <= late && before == WholeLength(early)
    ensures before <= |late| && late[..before] == early[..before]
    ensures before == 0 || late[before - 1] == '\n'
  {
  }

  lemma {:induction false} OnePiece<U(!new)>(text: string, parse: string -> set<U>, before: nat, offset: nat)
    requires Additive(parse) && before <= offset <= |text|
    requires before == 0 || text[before - 1] == '\n'
    ensures parse(text[..before]) + parse(text[before..offset]) == parse(text[..offset])
  {
    var seen, piece := text[..before], text[before..offset];
    assert seen + piece == text[..offset];
    assert parse(seen + piece) == parse(seen) + parse(piece);
  }

  lemma {:induction false} UsesAreAdditive()
    ensures Additive((text: string) => Uses(Entries(text)))
  {
    forall a, b | Whole(a)
      ensures Uses(Entries(a + b)) == Uses(Entries(a)) + Uses(Entries(b))
    {
      EntriesConcat(a, b);
      UsesConcat(Entries(a), Entries(b));
    }
  }

  /** However often and whenever the journal is read as it grows, the uses seen
      are those of parsing its whole lines once. */
  lemma {:induction false} ReadingInPiecesIsReadingOnce(texts: seq<string>, n: nat)
    requires Grows(texts) && 0 < n <= |texts|
    ensures var (offset, uses) := Refreshing(texts, (text: string) => Uses(Entries(text)), n);
      offset == WholeLength(texts[n - 1]) && uses == Uses(Entries(texts[n - 1][..offset]))
  {
    UsesAreAdditive();
    PiecesAddUp(texts, (text: string) => Uses(Entries(text)), n);
  }
}
