/**
 Dependency files as rustc writes them: lines of targets and dependencies with
 Make's escaped spaces, and comments that name environment variables.
 */
module DepInfo {
  import opened Results
  import opened Replace

  // ----- Words -------------------------------------------------------------

  /** Unicode white space. */
  predicate IsSpace(c: char) {
    var n := c as int;
    || 9 <= n <= 13 || n == 32 || n == 0x85 || n == 0xA0 || n == 0x1680 || 0x2000 <= n <= 0x200A
    || n == 0x2028 || n == 0x2029 || n == 0x202F || n == 0x205F || n == 0x3000
  }

  function Flushed(current: string): seq<string> {
    if |current| == 0 then [] else [current]
  }

  /** Only a backslash before a space escapes; any other is literal. */
  function WordsFrom(value: string, current: string): seq<string>
    decreases |value|
  {
    if |value| == 0 then Flushed(current)
    else if value[0] == '\\' && |value| > 1 && value[1] == ' ' then WordsFrom(value[2..], current + [' '])
    else if IsSpace(value[0]) then Flushed(current) + WordsFrom(value[1..], [])
    else WordsFrom(value[1..], current + [value[0]])
  }

  function Words(value: string): seq<string> {
    WordsFrom(value, [])
  }

  function Escaped(word: string): string {
    if |word| == 0 then []
    else if word[0] == ' ' then ['\\', ' '] + Escaped(word[1..])
    else [word[0]] + Escaped(word[1..])
  }

  function Joined(words: seq<string>): string {
    if |words| == 0 then [] else if |words| == 1 then words[0] else words[0] + [' '] + Joined(words[1..])
  }

  function RewriteWords(value: string, f: string -> string): string {
    Joined(Mapped(Words(value), f))
  }

  function Mapped(words: seq<string>, f: string -> string): seq<string> {
    seq(|words|, i requires 0 <= i < |words| => Escaped(f(words[i])))
  }

  // ----- Lines -------------------------------------------------------------

  /** Where a character first is, or the length. */
  function IndexOf(text: string, c: char): (i: nat)
    ensures i <= |text| && (i < |text| ==> text[i] == c) && forall k :: 0 <= k < i ==> text[k] != c
  {
    if |text| == 0 || text[0] == c then 0 else
      var i := IndexOf(text[1..], c);
      assert forall k :: 0 < k < 1 + i ==> text[k] == text[1..][k - 1];
      1 + i
  }

  /** Lines with their endings. */
  function Pieces(text: string): seq<string>
    decreases |text|
  {
    if |text| == 0 then [] else
      var i := IndexOf(text, '\n');
      if i == |text| then [text] else [text[..i + 1]] + Pieces(text[i + 1..])
  }

  predicate EndsWith(s: string, c: char) {
    |s| > 0 && s[|s| - 1] == c
  }

  /** A line without its ending, as it is read. */
  function LineOf(piece: string): string {
    if !EndsWith(piece, '\n') then piece
    else if EndsWith(piece[..|piece| - 1], '\r') then piece[..|piece| - 2]
    else piece[..|piece| - 1]
  }

  /** A line without any carriage return or line feed at its end, as it is
      rewritten. */
  function BodyOf(piece: string): string {
    if EndsWith(piece, '\n') || EndsWith(piece, '\r') then BodyOf(piece[..|piece| - 1]) else piece
  }

  function EndingOf(piece: string): string {
    if !EndsWith(piece, '\n') then []
    else if EndsWith(piece[..|piece| - 1], '\r') then ['\r', '\n']
    else ['\n']
  }

  const CRLF_JOIN := ['\\', '\r', '\n']
  const LF_JOIN := ['\\', '\n']

  /** Continued lines joined. */
  function Logical(text: string): string {
    Replaced(Replaced(text, CRLF_JOIN, []), LF_JOIN, [])
  }

  /** Where the first colon before a space is, or the length. */
  function Separator(s: string): (i: nat)
    ensures i <= |s| && (i < |s| ==> i + 1 < |s| && s[i] == ':' && s[i + 1] == ' ')
  {
    if |s| < 2 then |s|
    else if s[0] == ':' && s[1] == ' ' then 0
    else 1 + Separator(s[1..])
  }

  // ----- Reading -----------------------------------------------------------

  const ENV_DEP := "# env-dep:"

  datatype EnvDep = EnvDep(name: string, value: Option<string>)

  function EnvOf(rest: string): EnvDep {
    var i := IndexOf(rest, '=');
    if i == |rest| then EnvDep(rest, None) else EnvDep(rest[..i], Some(rest[i + 1..]))
  }

  function LineFiles(line: string): seq<string> {
    if Starts(line, ENV_DEP) then [] else
      var i := Separator(line);
      if i == |line| then [] else Words(line[i + 2..])
  }

  function LineEnv(line: string): set<EnvDep> {
    if Starts(line, ENV_DEP) then {EnvOf(line[|ENV_DEP|..])} else {}
  }

  datatype Dependencies = Dependencies(files: set<string>, env: set<EnvDep>)

  function Elements(words: seq<string>): set<string> {
    set w | w in words
  }

  function ReadPieces(pieces: seq<string>): Dependencies {
    if |pieces| == 0 then Dependencies({}, {}) else
      var rest := ReadPieces(pieces[1..]);
      var line := LineOf(pieces[0]);
      Dependencies(Elements(LineFiles(line)) + rest.files, LineEnv(line) + rest.env)
  }

  function Parse(text: string): Dependencies {
    ReadPieces(Pieces(Logical(text)))
  }

  // ----- Rewriting ---------------------------------------------------------

  function RewriteBody(body: string, f: string -> string): string {
    var i := Separator(body);
    if |body| > 0 && body[0] == '#' then body
    else if i < |body| then RewriteWords(body[..i], f) + [':', ' '] + RewriteWords(body[i + 2..], f)
    else if EndsWith(body, ':') then RewriteWords(body[..|body| - 1], f) + [':']
    else body
  }

  function RewritePiece(piece: string, f: string -> string): string {
    RewriteBody(BodyOf(piece), f) + EndingOf(piece)
  }

  function Concat(pieces: seq<string>): string {
    if |pieces| == 0 then [] else pieces[0] + Concat(pieces[1..])
  }

  function RewrittenPieces(pieces: seq<string>, f: string -> string): seq<string> {
    seq(|pieces|, i requires 0 <= i < |pieces| => RewritePiece(pieces[i], f))
  }

  function Rewrite(text: string, f: string -> string): string {
    Concat(RewrittenPieces(Pieces(Logical(text)), f))
  }

  // ----- As computed -------------------------------------------------------

  method SplitMakefileWords(value: string) returns (words: seq<string>)
    ensures words == Words(value)
  {
    hide IsSpace;
    words := [];
    var current: string := [];
    var i := 0;
    assert value[0..] == value;
    while i < |value|
      invariant 0 <= i <= |value|
      invariant Words(value) == words + WordsFrom(value[i..], current)
    {
      var ch := value[i];
      assert value[i..][1..] == value[i + 1..];
      i := i + 1;
      if ch == '\\' && i < |value| && value[i] == ' ' {
        assert value[i - 1..][2..] == value[i + 1..];
        current := current + [value[i]];
        i := i + 1;
      } else if IsSpace(ch) {
        if |current| > 0 {
          words := words + [current];
          current := [];
        }
      } else {
        current := current + [ch];
      }
    }
    if |current| > 0 {
      words := words + [current];
    }
  }

  method RewriteDepInfo(text: string, f: string -> string) returns (result: string)
    ensures result == Rewrite(text, f)
  {
    hide Pieces, Logical, RewriteBody, BodyOf, EndingOf;
    var lines := Pieces(Logical(text));
    result := [];
    assert lines[0..] == lines;
    for i := 0 to |lines|
      invariant Rewrite(text, f) == result + Concat(RewrittenPieces(lines[i..], f))
    {
      assert RewrittenPieces(lines[i..], f)[1..] == RewrittenPieces(lines[i + 1..], f);
      var rest := Concat(RewrittenPieces(lines[i + 1..], f));
      assert result + (RewritePiece(lines[i], f) + rest) == result + RewritePiece(lines[i], f) + rest;
      assert result + (RewriteBody(BodyOf(lines[i]), f) + EndingOf(lines[i])) == result + RewriteBody(BodyOf(lines[i]), f) + EndingOf(lines[i]);
      result := result + RewriteBody(BodyOf(lines[i]), f) + EndingOf(lines[i]);
    }
    assert result + [] == result;
  }

  method ReadLine(line: string) returns (files: set<string>, env: set<EnvDep>)
    ensures files == Elements(LineFiles(line)) && env == LineEnv(line)
  {
    files, env := {}, {};
    if Starts(line, ENV_DEP) {
      env := {EnvOf(line[|ENV_DEP|..])};
    } else {
      var at := Separator(line);
      if at < |line| {
        var words := SplitMakefileWords(line[at + 2..]);
        files := Elements(words);
      }
    }
  }

  method ParseDepInfo(text: string) returns (files: set<string>, env: set<EnvDep>)
    ensures Dependencies(files, env) == Parse(text)
  {
    hide Pieces, Logical, LineFiles, LineEnv, LineOf, Elements;
    var lines := Pieces(Logical(text));
    files, env := {}, {};
    assert lines[0..] == lines;
    for i := 0 to |lines|
      invariant Parse(text) == Dependencies(files + ReadPieces(lines[i..]).files, env + ReadPieces(lines[i..]).env)
    {
      assert lines[i..][1..] == lines[i + 1..];
      var someFiles, someEnv := ReadLine(LineOf(lines[i]));
      ghost var rest := ReadPieces(lines[i + 1..]);
      assert files + (someFiles + rest.files) == files + someFiles + rest.files;
      assert env + (someEnv + rest.env) == env + someEnv + rest.env;
      files, env := files + someFiles, env + someEnv;
    }
    assert files + {} == files && env + {} == env;
  }
}
