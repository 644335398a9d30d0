/**
 The linker command as rustc prints it, parsed back: environment assignments,
 then the quoted program and its quoted arguments.
 */
module LinkCommand {
  import opened Results
  import opened DepInfo
  import Seqs

  datatype EnvVar = EnvVar(name: string, value: string)

  datatype Command = Command(env: seq<EnvVar>, program: string, args: seq<string>)

  // ----- Quoted strings ----------------------------------------------------

  function HexDigitValue(c: char): Option<nat> {
    if '0' <= c <= '9' then Some(c as nat - '0' as nat)
    else if 'a' <= c <= 'f' then Some(c as nat - 'a' as nat + 10)
    else if 'A' <= c <= 'F' then Some(c as nat - 'A' as nat + 10)
    else None
  }

  function HexDigits(digits: string): Option<nat> {
    if |digits| == 0 then Some(0) else
      var front, last := HexDigits(digits[..|digits| - 1]), HexDigitValue(digits[|digits| - 1]);
      if front.Some? && last.Some? then Some(front.value * 16 + last.value) else None
  }

  const U32_LIMIT: nat := 0x1_0000_0000

  /** A 32-bit number in base sixteen, with an optional plus sign. */
  function HexNumber(digits: string): Option<nat> {
    var body := if |digits| > 1 && digits[0] == '+' then digits[1..] else digits;
    if |body| == 0 then None else
      var n := HexDigits(body);
      if n.Some? && n.value < U32_LIMIT then n else None
  }

  predicate IsScalar(n: nat) {
    n < 0xD800 || 0xE000 <= n < 0x11_0000
  }

  function ScalarOf(digits: string): Option<char> {
    var n := HexNumber(digits);
    if n.Some? && IsScalar(n.value) then Some(n.value as char) else None
  }

  function ShortEscape(c: char): Option<char> {
    if c == 'n' then Some('\n')
    else if c == 't' then Some('\t')
    else if c == 'r' then Some('\r')
    else if c == '0' then Some('\0')
    else if c == '\\' || c == '"' || c == '\'' then Some(c)
    else None
  }

  datatype Quoted = Quoted(value: string, rest: string)

  function Prepend(c: char, q: Option<Quoted>): Option<Quoted> {
    if q.Some? then Some(Quoted([c] + q.value.value, q.value.rest)) else None
  }

  /** The string up to the closing quote, and what follows it. */
  function ReadQuoted(text: string): Option<Quoted>
    decreases |text|
  {
    if |text| == 0 then None
    else if text[0] == '"' then Some(Quoted([], text[1..]))
    else if text[0] != '\\' then Prepend(text[0], ReadQuoted(text[1..]))
    else if |text| == 1 then None
    else if text[1] == 'u' then
      if |text| == 2 || text[2] != '{' then None else
        var end := IndexOf(text[3..], '}');
        var c := ScalarOf(text[3..][..end]);
        if c.None? || end == |text[3..]| then None else Prepend(c.value, ReadQuoted(text[3..][end + 1..]))
    else
      var c := ShortEscape(text[1]);
      if c.None? then None else Prepend(c.value, ReadQuoted(text[2..]))
  }

  lemma {:induction false} RestIsShorter(text: string)
    ensures ReadQuoted(text).Some? ==> |ReadQuoted(text).value.rest| < |text|
    decreases |text|
  {
    if |text| == 0 || text[0] == '"' {
    } else if text[0] != '\\' {
      RestIsShorter(text[1..]);
    } else if |text| > 2 && text[1] == 'u' && text[2] == '{' {
      var end := IndexOf(text[3..], '}');
      if end < |text[3..]| {
        RestIsShorter(text[3..][end + 1..]);
      }
    } else if |text| > 1 && text[1] != 'u' {
      RestIsShorter(text[2..]);
    }
  }

  // ----- The command -------------------------------------------------------

  function TrimStart(s: string): string {
    if |s| > 0 && IsSpace(s[0]) then TrimStart(s[1..]) else s
  }

  function TrimEnd(s: string): string {
    if |s| > 0 && IsSpace(s[|s| - 1]) then TrimEnd(s[..|s| - 1]) else s
  }

  lemma {:induction false} TrimmedIsNoLonger(s: string)
    ensures |TrimStart(s)| <= |s|
  {
    if |s| > 0 && IsSpace(s[0]) {
      TrimmedIsNoLonger(s[1..]);
    }
  }

  /** Where the first word ends: at a space or a quote. */
  function WordEnd(s: string): (i: nat)
    ensures i <= |s| && (i < |s| ==> s[i] == ' ' || s[i] == '"')
  {
    if |s| == 0 || s[0] == ' ' || s[0] == '"' then 0 else 1 + WordEnd(s[1..])
  }

  datatype Partial = Partial(env: seq<EnvVar>, program: Option<string>, args: seq<string>)

  function WithString(p: Partial, value: string): Partial {
    if p.program.None? then p.(program := Some(value)) else p.(args := p.args + [value])
  }

  /** One item from the front: a quoted string or an assignment. */
  function Item(rest: string, p: Partial): (r: Option<(Partial, string)>)
    requires |rest| > 0
    ensures r.Some? ==> |r.value.1| < |rest|
  {
    if rest[0] == '"' then
      RestIsShorter(rest[1..]);
      match ReadQuoted(rest[1..])
      case None => None
      case Some(q) =>
        TrimmedIsNoLonger(q.rest);
        Some((WithString(p, q.value), TrimStart(q.rest)))
    else
      var end := WordEnd(rest);
      if end > 0 && rest[end - 1] == '=' && end < |rest| && rest[end] == '"' && p.program.None? then
        RestIsShorter(rest[end + 1..]);
        match ReadQuoted(rest[end + 1..])
        case None => None
        case Some(q) =>
          TrimmedIsNoLonger(q.rest);
          Some((p.(env := p.env + [EnvVar(rest[..end - 1], q.value)]), TrimStart(q.rest)))
      else None
  }

  function Items(rest: string, p: Partial): Option<Partial>
    decreases |rest|
  {
    if |rest| == 0 then Some(p) else
      match Item(rest, p)
      case None => None
      case Some(next) => Items(next.1, next.0)
  }

  const NOTHING := Partial([], None, [])

  function Parse(text: string): Result<Command> {
    var p := Items(TrimStart(TrimEnd(text)), NOTHING);
    if p.Some? && p.value.program.Some? then Ok(Command(p.value.env, p.value.program.value, p.value.args)) else Err
  }

  // ----- As computed -------------------------------------------------------

  /** One character of a quoted string: what it is, and how much spells it. */
  method ReadCharacter(rest: string) returns (c: char, used: nat)
    requires |rest| > 0 && rest[0] != '"'
    ensures used <= |rest|
    ensures ReadQuoted(rest) == if used == 0 then None else Prepend(c, ReadQuoted(rest[used..]))
  {
    c, used := rest[0], 1;
    if rest[0] == '\\' {
      if |rest| == 1 {
        return c, 0;
      }
      if rest[1] == 'u' {
        if |rest| == 2 || rest[2] != '{' {
          return c, 0;
        }
        var end := IndexOf(rest[3..], '}');
        var scalar := ScalarOf(rest[3..][..end]);
        if scalar.None? || end == |rest[3..]| {
          return c, 0;
        }
        assert rest[3..][end + 1..] == rest[4 + end..];
        return scalar.value, 4 + end;
      }
      var short := ShortEscape(rest[1]);
      if short.None? {
        return c, 0;
      }
      return short.value, 2;
    }
  }

  method ReadQuotedLoop(text: string) returns (r: Option<Quoted>)
    ensures r == ReadQuoted(text)
  {
    var value: string := [];
    var i := 0;
    assert text[0..] == text;
    PrependNothing(ReadQuoted(text));
    while i < |text|
      invariant 0 <= i <= |text|
      invariant ReadQuoted(text) == PrependAll(value, ReadQuoted(text[i..]))
      decreases |text| - i
    {
      var rest := text[i..];
      if rest[0] == '"' {
        assert ReadQuoted(rest) == Some(Quoted([], rest[1..]));
        Seqs.Empty(value);
        return Some(Quoted(value, rest[1..]));
      }
      var c, used := ReadCharacter(rest);
      hide ReadQuoted, Prepend, PrependAll;
      if used == 0 {
        PrependNone(value);
        return None;
      }
      assert rest[used..] == text[i + used..];
      PrependMore(value, c, ReadQuoted(text[i + used..]));
      value := value + [c];
      i := i + used;
    }
    assert text[|text|..] == [];
    r := None;
  }

  lemma {:induction false} PrependNone(front: string)
    ensures PrependAll(front, None) == None
  {
  }

  lemma {:induction false} PrependNothing(q: Option<Quoted>)
    ensures PrependAll([], q) == q
  {
    if q.Some? {
      Seqs.Empty(q.value.value);
    }
  }

  function PrependAll(front: string, q: Option<Quoted>): Option<Quoted> {
    if q.Some? then Some(Quoted(front + q.value.value, q.value.rest)) else None
  }

  lemma {:induction false} PrependMore(front: string, c: char, q: Option<Quoted>)
    ensures PrependAll(front, Prepend(c, q)) == PrependAll(front + [c], q)
  {
    if q.Some? {
      Seqs.Assoc(front, [c], q.value.value);
    }
  }

  method ParseLinkCommand(text: string) returns (r: Result<Command>)
    ensures r == Parse(text)
  {
    var rest := TrimStart(TrimEnd(text));
    var p := NOTHING;
    while |rest| > 0
      invariant Items(TrimStart(TrimEnd(text)), NOTHING) == Items(rest, p)
      decreases |rest|
    {
      var name: Option<string> := None;
      var start := 1;
      if rest[0] != '"' {
        var end := WordEnd(rest);
        if !(end > 0 && rest[end - 1] == '=' && end < |rest| && rest[end] == '"' && p.program.None?) {
          return Err;
        }
        name, start := Some(rest[..end - 1]), end + 1;
      }
      RestIsShorter(rest[start..]);
      var q := ReadQuotedLoop(rest[start..]);
      if q.None? {
        return Err;
      }
      TrimmedIsNoLonger(q.value.rest);
      if name.Some? {
        p := p.(env := p.env + [EnvVar(name.value, q.value.value)]);
      } else if p.program.None? {
        p := p.(program := Some(q.value.value));
      } else {
        p := p.(args := p.args + [q.value.value]);
      }
      rest := TrimStart(q.value.rest);
    }
    if p.program.None? {
      return Err;
    }
    r := Ok(Command(p.env, p.program.value, p.args));
  }
}
