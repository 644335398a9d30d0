/** Parsing a rendered linker command gives the command back. */
module LinkRendering {
  import opened Results
  import opened DepInfo
  import opened LinkCommand
  import Seqs

  // ----- Spelling characters -----------------------------------------------

  /** The spellings a quoted string may use for a character. */
  predicate Spells(c: char, r: string) {
    || (r == [c] && c != '"' && c != '\\')
    || (|r| == 2 && r[0] == '\\' && r[1] != 'u' && ShortEscape(r[1]) == Some(c))
    || (|r| > 4 && r[0] == '\\' && r[1] == 'u' && r[2] == '{' && r[|r| - 1] == '}'
        && (forall i :: 3 <= i < |r| - 1 ==> r[i] != '}') && ScalarOf(r[3..|r| - 1]) == Some(c))
  }

  predicate Spelled(s: string, rs: seq<string>) {
    |rs| == |s| && forall i :: 0 <= i < |s| ==> Spells(s[i], rs[i])
  }

  lemma {:induction false} PlainReads(c: char, more: string)
    requires c != '"' && c != '\\'
    ensures ReadQuoted([c] + more) == Prepend(c, ReadQuoted(more))
  {
    assert ([c] + more)[1..] == more;
  }

  lemma {:induction false} ShortReads(c: char, e: char, more: string)
    requires e != 'u' && ShortEscape(e) == Some(c)
    ensures ReadQuoted(['\\', e] + more) == Prepend(c, ReadQuoted(more))
  {
    assert (['\\', e] + more)[2..] == more;
  }

  lemma {:induction false} CharacterReads(c: char, r: string, more: string)
    requires Spells(c, r)
    ensures ReadQuoted(r + more) == Prepend(c, ReadQuoted(more))
  {
    hide ReadQuoted, ShortEscape, ScalarOf;
    if r == [c] && c != '"' && c != '\\' {
      PlainReads(c, more);
    } else if |r| == 2 {
      ShortReads(c, r[1], more);
      assert r == ['\\', r[1]];
    } else {
      ScalarReads(c, r[3..|r| - 1], more);
      assert r == ['\\', 'u', '{'] + r[3..|r| - 1] + ['}'];
      assert r + more == ['\\', 'u', '{'] + (r[3..|r| - 1] + ['}'] + more);
    }
  }

  lemma {:induction false} FirstBrace(digits: string, more: string)
    requires forall i :: 0 <= i < |digits| ==> digits[i] != '}'
    ensures IndexOf(digits + ['}'] + more, '}') == |digits|
  {
    var s := digits + ['}'] + more;
    assert s[|digits|] == '}';
    assert forall i :: 0 <= i < |digits| ==> s[i] == digits[i];
  }

  lemma {:induction false} ScalarReads(c: char, digits: string, more: string)
    requires (forall i :: 0 <= i < |digits| ==> digits[i] != '}') && ScalarOf(digits) == Some(c)
    ensures ReadQuoted(['\\', 'u', '{'] + (digits + ['}'] + more)) == Prepend(c, ReadQuoted(more))
  {
    var tail := digits + ['}'] + more;
    var text := ['\\', 'u', '{'] + tail;
    FirstBrace(digits, more);
    assert text[3..] == tail;
    assert tail[..|digits|] == digits && tail[|digits| + 1..] == more;
  }

  lemma {:induction false} StringReads(s: string, rs: seq<string>, rest: string)
    requires Spelled(s, rs)
    ensures ReadQuoted(Concat(rs) + (['"'] + rest)) == Some(Quoted(s, rest))
  {
    var close := ['"'] + rest;
    if |s| == 0 {
      assert Concat(rs) + close == close && close[1..] == rest;
    } else {
      hide Spells;
      StringReads(s[1..], rs[1..], rest);
      Seqs.Assoc(rs[0], Concat(rs[1..]), close);
      CharacterReads(s[0], rs[0], Concat(rs[1..]) + close);
      assert s == [s[0]] + s[1..];
    }
  }

  // ----- Rust's own spelling -----------------------------------------------

  function LowerHex(d: nat): char
    requires d < 16
  {
    if d < 10 then ('0' as int + d) as char else ('a' as int + (d - 10)) as char
  }

  function HexOf(n: nat): (r: string)
    ensures |r| > 0 && forall i :: 0 <= i < |r| ==> r[i] != '}' && r[i] != '+'
  {
    if n < 16 then [LowerHex(n)] else HexOf(n / 16) + [LowerHex(n % 16)]
  }

  lemma {:induction false} HexReads(n: nat)
    ensures HexDigits(HexOf(n)) == Some(n)
  {
    if n < 16 {
      assert [LowerHex(n)][..0] == [];
    } else {
      HexReads(n / 16);
      var front, last := HexOf(n / 16), LowerHex(n % 16);
      assert (front + [last])[..|front|] == front;
    }
  }

  /** As `Debug` renders a character: a short escape where there is one, the
      code point where it is not printable, and otherwise itself. */
  function DebugSpelling(c: char, printable: char -> bool): string {
    if c == '"' then ['\\', '"']
    else if c == '\\' then ['\\', '\\']
    else if c == '\n' then ['\\', 'n']
    else if c == '\t' then ['\\', 't']
    else if c == '\r' then ['\\', 'r']
    else if c == '\0' then ['\\', '0']
    else if printable(c) then [c]
    else ['\\', 'u', '{'] + HexOf(c as nat) + ['}']
  }

  /** Whatever counts as printable, that is one of the spellings. */
  lemma {:induction false} DebugSpells(c: char, printable: char -> bool)
    ensures Spells(c, DebugSpelling(c, printable))
  {
    hide HexOf, HexDigits;
    var r := DebugSpelling(c, printable);
    var digits := HexOf(c as nat);
    if |r| > 4 {
      assert r[3..|r| - 1] == digits;
      HexReads(c as nat);
      assert forall i :: 3 <= i < |r| - 1 ==> r[i] == digits[i - 3];
    }
  }

  // ----- Rendering a command -----------------------------------------------

  /** A string and a way to spell each of its characters. */
  datatype Text = Text(value: string, spelled: seq<string>) {
    predicate Valid() {
      Spelled(value, spelled)
    }

    function Shown(): string {
      ['"'] + (Concat(spelled) + ['"'])
    }
  }

  datatype Assignment = Assignment(name: string, value: Text)

  /** A name without spaces and quotes. */
  predicate NameOk(name: string) {
    forall i :: 0 <= i < |name| ==> name[i] != ' ' && name[i] != '"'
  }

  function ShownArgs(args: seq<Text>): string {
    if |args| == 0 then [] else [' '] + (args[0].Shown() + ShownArgs(args[1..]))
  }

  function ShownEnv(env: seq<Assignment>, rest: string): string {
    if |env| == 0 then rest else env[0].name + (['='] + (env[0].value.Shown() + ([' '] + ShownEnv(env[1..], rest))))
  }

  function Shown(env: seq<Assignment>, program: Text, args: seq<Text>): string {
    ShownEnv(env, program.Shown() + ShownArgs(args))
  }

  function Values(args: seq<Text>): seq<string> {
    seq(|args|, i requires 0 <= i < |args| => args[i].value)
  }

  function Env(env: seq<Assignment>): seq<EnvVar> {
    seq(|env|, i requires 0 <= i < |env| => EnvVar(env[i].name, env[i].value.value))
  }

  /** The assignments as they are read: without white space before a name. */
  function TrimmedEnv(env: seq<Assignment>): seq<EnvVar> {
    seq(|env|, i requires 0 <= i < |env| => EnvVar(TrimStart(env[i].name), env[i].value.value))
  }

  predicate AllValid(args: seq<Text>) {
    forall i :: 0 <= i < |args| ==> args[i].Valid()
  }

  predicate EnvOk(env: seq<Assignment>) {
    forall i :: 0 <= i < |env| ==> NameOk(env[i].name) && env[i].value.Valid()
  }

  // ----- Reading it back ---------------------------------------------------

  lemma {:induction false} ShownReads(t: Text, rest: string)
    requires t.Valid()
    ensures (t.Shown() + rest)[0] == '"' && ReadQuoted((t.Shown() + rest)[1..]) == Some(Quoted(t.value, rest))
  {
    var text := t.Shown() + rest;
    Seqs.Assoc(['"'], Concat(t.spelled) + ['"'], rest);
    Seqs.Assoc(Concat(t.spelled), ['"'], rest);
    assert text == ['"'] + (Concat(t.spelled) + (['"'] + rest));
    assert text[1..] == Concat(t.spelled) + (['"'] + rest);
    StringReads(t.value, t.spelled, rest);
  }

  lemma {:induction false} StringItem(t: Text, rest: string, p: Partial)
    requires t.Valid()
    ensures |t.Shown() + rest| > 0
    ensures Item(t.Shown() + rest, p) == Some((WithString(p, t.value), TrimStart(rest)))
  {
    ShownReads(t, rest);
  }

  /** A space and then something that is no white space. */
  lemma {:induction false} TrimsOneSpace(rest: string)
    requires |rest| > 0 ==> !IsSpace(rest[0])
    ensures TrimStart([' '] + rest) == rest
  {
    assert ([' '] + rest)[1..] == rest;
  }

  lemma {:induction false} ArgumentsRead(args: seq<Text>, p: Partial)
    requires AllValid(args) && p.program.Some?
    ensures Items(TrimStart(ShownArgs(args)), p) == Some(p.(args := p.args + Values(args)))
  {
    hide ReadQuoted, Item, Spelled;
    if |args| == 0 {
      assert Values(args) == [] && p.args + [] == p.args;
    } else {
      var t, rest := args[0], ShownArgs(args[1..]);
      StringItem(t, rest, p);
      TrimsOneSpace(t.Shown() + rest);
      var next := WithString(p, t.value);
      ArgumentsRead(args[1..], next);
      assert p.args + [t.value] + Values(args[1..]) == p.args + Values(args);
    }
  }

  lemma {:induction false} ProgramReads(program: Text, args: seq<Text>, p: Partial)
    requires program.Valid() && AllValid(args) && p.program.None?
    ensures Items(program.Shown() + ShownArgs(args), p) == Some(Partial(p.env, Some(program.value), p.args + Values(args)))
  {
    hide ReadQuoted, Item, Spelled;
    StringItem(program, ShownArgs(args), p);
    ArgumentsRead(args, WithString(p, program.value));
  }

  lemma {:induction false} NameEnds(name: string, rest: string)
    requires NameOk(name) && |rest| > 0 && rest[0] == '"'
    ensures WordEnd(name + (['='] + rest)) == |name| + 1
  {
    var text := name + (['='] + rest);
    if |name| == 0 {
      assert text == ['='] + rest && text[1..] == rest;
    } else {
      assert text[1..] == name[1..] + (['='] + rest);
      NameEnds(name[1..], rest);
    }
  }

  lemma {:induction false} AssignmentItem(a: Assignment, rest: string, p: Partial)
    requires NameOk(a.name) && (|a.name| > 0 ==> !IsSpace(a.name[0])) && a.value.Valid() && p.program.None?
    ensures |a.name + (['='] + (a.value.Shown() + rest))| > 0
    ensures Item(a.name + (['='] + (a.value.Shown() + rest)), p)
      == Some((p.(env := p.env + [EnvVar(a.name, a.value.value)]), TrimStart(rest)))
  {
    var quoted := a.value.Shown() + rest;
    var text := a.name + (['='] + quoted);
    ShownReads(a.value, rest);
    NameEnds(a.name, quoted);
    hide ReadQuoted, WordEnd, Spelled, TrimStart;
    var end := |a.name| + 1;
    assert text[end..] == quoted && text[end + 1..] == quoted[1..];
    assert text[end - 1] == '=' && text[end] == quoted[0] == '"' && text[..end - 1] == a.name;
    assert text[0] == if |a.name| > 0 then a.name[0] else '=';
  }

  lemma {:induction false} TrimsName(name: string, rest: string)
    requires |rest| > 0 && !IsSpace(rest[0])
    ensures TrimStart(name + rest) == TrimStart(name) + rest
    ensures |TrimStart(name)| > 0 ==> !IsSpace(TrimStart(name)[0])
    ensures NameOk(name) ==> NameOk(TrimStart(name))
  {
    if |name| == 0 {
      assert name + rest == rest;
    } else if IsSpace(name[0]) {
      assert (name + rest)[1..] == name[1..] + rest;
      TrimsName(name[1..], rest);
    }
  }

  lemma {:induction false} TrimsShown(t: Text, rest: string)
    ensures TrimStart(t.Shown() + rest) == t.Shown() + rest
  {
  }

  lemma {:induction false} EverythingReads(env: seq<Assignment>, program: Text, args: seq<Text>, p: Partial)
    requires EnvOk(env) && program.Valid() && AllValid(args) && p.program.None?
    ensures Items(TrimStart(Shown(env, program, args)), p)
      == Some(Partial(p.env + TrimmedEnv(env), Some(program.value), p.args + Values(args)))
  {
    hide ReadQuoted, Item, Spelled, TrimStart, NameOk;
    if |env| == 0 {
      TrimsShown(program, ShownArgs(args));
      ProgramReads(program, args, p);
      assert TrimmedEnv(env) == [] && p.env + [] == p.env;
    } else {
      var a, rest := env[0], Shown(env[1..], program, args);
      var name, shown := TrimStart(a.name), a.value.Shown() + ([' '] + rest);
      TrimsName(a.name, ['='] + shown);
      AssignmentItem(Assignment(name, a.value), [' '] + rest, p);
      TrimsSpace(rest);
      var next := p.(env := p.env + [EnvVar(name, a.value.value)]);
      EverythingReads(env[1..], program, args, next);
      assert p.env + [EnvVar(name, a.value.value)] + TrimmedEnv(env[1..]) == p.env + TrimmedEnv(env);
    }
  }

  lemma {:induction false} TrimsSpace(rest: string)
    ensures TrimStart([' '] + rest) == TrimStart(rest)
  {
    assert ([' '] + rest)[1..] == rest;
  }

  predicate Blank(s: string) {
    forall i :: 0 <= i < |s| ==> IsSpace(s[i])
  }

  lemma {:induction false} TrimsFront(before: string, s: string)
    requires Blank(before)
    ensures TrimStart(before + s) == TrimStart(s)
  {
    if |before| == 0 {
      assert before + s == s;
    } else {
      assert (before + s)[1..] == before[1..] + s;
      TrimsFront(before[1..], s);
    }
  }

  lemma {:induction false} TrimsBack(s: string, after: string)
    requires Blank(after) && (|s| > 0 ==> !IsSpace(s[|s| - 1]))
    ensures TrimEnd(s + after) == s
  {
    if |after| == 0 {
      assert s + after == s;
    } else {
      assert (s + after)[..|s + after| - 1] == s + after[..|after| - 1];
      TrimsBack(s, after[..|after| - 1]);
    }
  }

  lemma {:induction false} ShownEnds(env: seq<Assignment>, program: Text, args: seq<Text>)
    ensures var s := Shown(env, program, args); |s| > 0 && s[|s| - 1] == '"'
  {
    if |env| > 0 {
      ShownEnds(env[1..], program, args);
    } else {
      ArgsEnd(args);
      assert program.Shown()[|program.Shown()| - 1] == '"';
    }
  }

  lemma {:induction false} ArgsEnd(args: seq<Text>)
    ensures |args| > 0 ==> |ShownArgs(args)| > 0 && ShownArgs(args)[|ShownArgs(args)| - 1] == '"'
  {
    if |args| > 0 {
      ArgsEnd(args[1..]);
      assert args[0].Shown()[|args[0].Shown()| - 1] == '"';
    }
  }

  /** No assigned name begins with white space. */
  predicate NamesBegin(env: seq<Assignment>) {
    forall i :: 0 <= i < |env| && |env[i].name| > 0 ==> !IsSpace(env[i].name[0])
  }

  lemma {:induction false} TrimmedIsSame(env: seq<Assignment>)
    ensures TrimmedEnv(env) == Env(env) <==> NamesBegin(env)
  {
    if NamesBegin(env) {
      assert forall i :: 0 <= i < |env| ==> TrimmedEnv(env)[i] == Env(env)[i];
    }
    if TrimmedEnv(env) == Env(env) {
      forall i | 0 <= i < |env| && |env[i].name| > 0
        ensures !IsSpace(env[i].name[0])
      {
        assert TrimmedEnv(env)[i] == Env(env)[i];
        TrimmedIsNoLonger(env[i].name[1..]);
      }
    }
  }

  /** The parser inverts every rendering: any strings, spelled any way the
      quoting allows, between any white space. Only white space before an
      assigned name is lost, so it gives the command back exactly if there is none. */
  lemma {:induction false} ParsingInvertsRendering(env: seq<Assignment>, program: Text, args: seq<Text>, before: string, after: string)
    requires EnvOk(env) && program.Valid() && AllValid(args) && Blank(before) && Blank(after)
    ensures var parsed := LinkCommand.Parse(before + (Shown(env, program, args) + after));
      && parsed == Ok(Command(TrimmedEnv(env), program.value, Values(args)))
      && (parsed == Ok(Command(Env(env), program.value, Values(args))) <==> NamesBegin(env))
  {
    var s := Shown(env, program, args);
    ShownEnds(env, program, args);
    EverythingReads(env, program, args, NOTHING);
    TrimmedIsSame(env);
    hide Shown, Items, TrimStart, TrimEnd;
    Seqs.Assoc(before, s, after);
    assert (before + s)[|before + s| - 1] == s[|s| - 1];
    TrimsBack(before + s, after);
    TrimsFront(before, s);
    Seqs.Empty(TrimmedEnv(env));
    Seqs.Empty(Values(args));
  }
}
