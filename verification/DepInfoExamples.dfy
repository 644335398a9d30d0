/** What rewriting does to lines it was not written for: each condition of the
    main theorem on dependency files fails on one of these. */
module DepInfoExamples {
  import opened Results
  import opened Replace
  import opened DepInfo
  import opened DepInfoProofs
  import Seqs

  /** A text of one line without a line ending is read and rewritten as that line. */
  lemma {:induction false} OneLineText(b: string, f: string -> string)
    requires |b| > 0 && NoLineFeed(b)
    ensures Parse(b) == Dependencies(Elements(LineFiles(b)), LineEnv(b))
    ensures Rewrite(b, f) == RewriteBody(BodyOf(b), f)
  {
    hide RewriteBody, LineFiles, LineEnv, Elements, BodyOf;
    NothingToJoin(b);
    OnePiece(b, f);
    OneReading(b);
  }

  lemma {:induction false} OneReading(b: string)
    requires !EndsWith(b, '\n')
    ensures ReadPieces([b]) == Dependencies(Elements(LineFiles(b)), LineEnv(b))
  {
    hide LineFiles, LineEnv, Elements;
    assert [b][1..] == [];
    assert ReadPieces([]) == Dependencies({}, {});
    assert Elements(LineFiles(b)) + {} == Elements(LineFiles(b)) && LineEnv(b) + {} == LineEnv(b);
  }

  lemma {:induction false} OnePiece(b: string, f: string -> string)
    requires |b| > 0 && NoLineFeed(b)
    ensures Pieces(b) == [b] && Concat(RewrittenPieces([b], f)) == RewriteBody(BodyOf(b), f)
  {
    hide RewriteBody, BodyOf;
    var r := RewriteBody(BodyOf(b), f);
    assert IndexOf(b, '\n') == |b|;
    assert RewritePiece(b, f) == r + [] == r;
    assert RewrittenPieces([b], f)[0] == r;
    assert RewrittenPieces([b], f)[1..] == [];
    Seqs.Empty(r);
  }

  // ----- Targets that begin a comment --------------------------------------

  const INDENTED := [' '] + (['#'] + [' '] + "env-dep")

  /** White space before a comment is lost, and with it what kept the comment
      from being an environment dependency. */
  lemma {:induction false} IndentedCommentBecomesEnvDep(f: string -> string)
    requires f(['#']) == ['#'] && f("env-dep") == "env-dep" && f("c") == "c"
    ensures Parse(Rewrite(INDENTED + ": c", f)).env != Parse(INDENTED + ": c").env
  {
    hide Words, LineFiles, LineEnv, RewriteBody, Escaped;
    var body, t := INDENTED + ": c", INDENTED;
    IndentedParts();
    assert BodyOf(body) == body;
    assert Images(["c"], f) == ["c"];
    assert Images([['#'], "env-dep"], f) == [['#'], "env-dep"];
    SampleWords();
    IndentedIsForged(f);
    OneLineText(body, f);
    var r := RewriteBody(body, f);
    RewrittenBody(body, f);
    OneLineText(r, f);
    EnvDepReads(r);
    EnvDepReads(body);
  }

  lemma {:induction false} IndentedParts()
    ensures Words(INDENTED) == [['#'], "env-dep"] && Words("c") == ["c"]
    ensures Separator(INDENTED + ": c") == |INDENTED|
  {
    hide Words, Separator;
    IndentedWords();
    OneWord("c");
    SeparatorAfter(INDENTED, ": c");
    SeparatorFirst("c");
    assert ": c" == [':', ' '] + "c";
  }

  lemma {:induction false} IndentedWords()
    ensures Words(INDENTED) == [['#'], "env-dep"]
  {
    hide Words, Joined;
    var words := [['#'], "env-dep"];
    SampleWords();
    JoinedReads(words);
    EscapedAs(['#']);
    EscapedAs("env-dep");
    hide Escaped;
    assert EscapedAll(words) == words;
    TwoJoined(['#'], "env-dep");
    LeadingSpace(Joined(words));
  }

  lemma {:induction false} SampleWords()
    ensures WordsOk([['#'], "env-dep"]) && WordsOk(["c"]) && AllTargets([['#'], "env-dep"])
  {
    assert WordOk(['#']) && WordOk("env-dep") && WordOk("c");
  }

  lemma {:induction false} TwoJoined(a: string, b: string)
    ensures Joined([a, b]) == a + [' '] + b
  {
    assert [a, b][1..] == [b];
    assert Joined([b]) == b;
  }

  lemma {:induction false} LeadingSpace(value: string)
    ensures Words([' '] + value) == Words(value)
  {
    assert ([' '] + value)[1..] == value;
    assert Flushed([]) + Words(value) == Words(value);
  }

  lemma {:induction false} EscapedAs(w: string)
    requires forall i :: 0 <= i < |w| ==> w[i] != ' '
    ensures Escaped(w) == w
  {
    if |w| > 0 {
      EscapedAs(w[1..]);
    }
  }

  lemma {:induction false} IndentedIsForged(f: string -> string)
    requires f(['#']) == ['#'] && f("env-dep") == "env-dep" && f("c") == "c"
    ensures ResultsOk(INDENTED + ": c", f)
    ensures Starts(RewriteBody(INDENTED + ": c", f), ENV_DEP)
  {
    hide Words, LineFiles, LineEnv, Escaped, Starts, Joined, RewriteWords, BeginsEnvDep;
    var body, words := INDENTED + ": c", [['#'], "env-dep"];
    IndentedParts();
    assert body[..|INDENTED|] == INDENTED && body[|INDENTED| + 2..] == "c";
    assert Images(["c"], f) == ["c"] && Images(words, f) == words;
    SampleWords();
    DependenciesCommute(INDENTED, "c", f);
    ForgedWords();
    EnvDepReads(RewriteBody(body, f));
  }

  lemma {:induction false} ForgedWords()
    ensures BeginsEnvDep([['#'], "env-dep"])
  {
    assert ("env-dep" + [':'])[..|NAME_PART|] == NAME_PART;
  }

  // ----- A comment that reads as a dependency ------------------------------

  const READABLE := "# x" + (": " + "y")

  lemma {:induction false} ReadableComment()
    ensures !Starts(READABLE, ENV_DEP) && IsComment(READABLE) && IsBody(READABLE)
    ensures Separator(READABLE) == |"# x"| && READABLE[|"# x"| + 2..] == "y"
  {
    hide Separator;
    SeparatorAfter("# x", ": " + "y");
    SeparatorFirst("y");
    EnvDepParts(READABLE);
    StartsUncons(READABLE[2..], NAME_PART);
  }

  lemma {:induction false} OneWord(w: string)
    requires WordOk(w) && forall i :: 0 <= i < |w| ==> w[i] != ' '
    ensures Words(w) == [w]
  {
    hide Words, Escaped;
    EscapedAs(w);
    assert EscapedAll([w]) == [w];
    assert WordsOk([w]);
    JoinedReads([w]);
  }

  /** The words of a comment are read, and never rewritten. */
  lemma {:induction false} CommentKeepsItsWords(f: string -> string)
    requires f("y") != "y"
    ensures Parse(READABLE).files == {"y"}
    ensures Parse(Rewrite(READABLE, f)).files != ImageOf(Parse(READABLE).files, f)
  {
    hide Words, Separator, Starts, Parse, Rewrite, BodyOf;
    ReadableComment();
    BodyReads(READABLE);
    OneWord("y");
    OneLineText(READABLE, f);
    assert LineFiles(READABLE) == ["y"];
    assert RewriteBody(READABLE, f) == READABLE;
    assert "y" in Elements(["y"]);
    assert f("y") in ImageOf({"y"}, f);
  }

  // ----- Line endings ------------------------------------------------------

  lemma {:induction false} MarkedReads(rest: string)
    ensures Starts(ENV_DEP + rest, ENV_DEP) && LineEnv(ENV_DEP + rest) == {EnvOf(rest)}
  {
    assert (ENV_DEP + rest)[..|ENV_DEP|] == ENV_DEP && (ENV_DEP + rest)[|ENV_DEP|..] == rest;
  }

  /** A carriage return that ends no line belongs to the variable's name when it
      is read, and is dropped when it is rewritten. */
  lemma {:induction false} StrayReturnIsDropped(f: string -> string)
    ensures Parse(Rewrite(ENV_DEP + ['\r'], f)).env != Parse(ENV_DEP + ['\r']).env
  {
    hide RewriteBody, LineFiles, LineEnv;
    var text := ENV_DEP + ['\r'];
    OneLineText(text, f);
    assert text[..|text| - 1] == ENV_DEP;
    assert BodyOf(text) == BodyOf(ENV_DEP) == ENV_DEP;
    MarkedReads(['\r']);
    MarkedReads([]);
    Seqs.Empty(ENV_DEP);
    MarkedIsKept(ENV_DEP, f);
    OneLineText(ENV_DEP, f);
    if EnvOf(['\r']) == EnvOf([]) {
      EnvIsInjective(['\r'], []);
    }
    assert EnvOf(['\r']) in {EnvOf(['\r'])};
  }

  const TWICE_CONTINUED := ENV_DEP + ['\\', '\\', '\n', '\n']
  const ONCE_CONTINUED := ENV_DEP + ['\\', '\n']

  /** Joining continued lines can leave a line that looks continued, and the
      next reading joins that too. */
  lemma {:induction false} JoiningLeavesAContinuation(f: string -> string)
    ensures Parse(Rewrite(TWICE_CONTINUED, f)).env != Parse(TWICE_CONTINUED).env
  {
    hide LineFiles, LineEnv, Logical;
    JoinedOnce();
    var body := ENV_DEP + ['\\'];
    MarkedReads(['\\']);
    MarkedReads([]);
    Seqs.Empty(ENV_DEP);
    assert body + ['\n'] == ONCE_CONTINUED;
    ContinuedPiece(body, f);
    EndingOnly(ENV_DEP);
    if EnvOf(['\\']) == EnvOf([]) {
      EnvIsInjective(['\\'], []);
    }
    assert EnvOf(['\\']) in {EnvOf(['\\'])};
  }

  lemma {:induction false} JoinedOnce()
    ensures Logical(TWICE_CONTINUED) == ONCE_CONTINUED && Logical(ONCE_CONTINUED) == ENV_DEP
  {
    hide Replaced;
    var twice, once := ['\\', '\\', '\n', '\n'], ['\\', '\n'];
    CopiesBlock(ENV_DEP, twice, CRLF_JOIN, []);
    CopiesBlock(ENV_DEP, once, CRLF_JOIN, []);
    CopiesBlock(ENV_DEP, once, LF_JOIN, []);
    NoReturnsNoJoin(twice);
    NoReturnsNoJoin(once);
    NotFoundNotReplaced(twice, CRLF_JOIN);
    NotFoundNotReplaced(once, CRLF_JOIN);
    CopiesBlock(ENV_DEP, twice, LF_JOIN, []);
    JoinsTwice();
    Seqs.Empty(ENV_DEP);
  }

  lemma {:induction false} NoReturnsNoJoin(s: string)
    requires forall i :: 0 <= i < |s| ==> s[i] != '\r'
    ensures forall i :: 0 <= i <= |s| ==> !FoundAt(s, CRLF_JOIN, i)
  {
    forall i | 0 <= i <= |s|
      ensures !FoundAt(s, CRLF_JOIN, i)
    {
      JoinsAt(s, i);
    }
  }

  lemma {:induction false} JoinsTwice()
    ensures Replaced(['\\', '\\', '\n', '\n'], LF_JOIN, []) == ['\\', '\n']
    ensures Replaced(['\\', '\n'], LF_JOIN, []) == []
  {
    hide Replaced;
    var tail := ['\\', '\n'] + ['\n'];
    ReplacesHead(LF_JOIN, ['\n'], []);
    ReplacesHead(LF_JOIN, [], []);
    NothingLeft(LF_JOIN, []);
    CopiesBlock(['\n'], [], LF_JOIN, []);
    assert ['\\'] + tail == ['\\', '\\', '\n', '\n'];
    assert (['\\'] + tail)[1] == '\\';
    CopiesHead('\\', tail, LF_JOIN, []);
    assert LF_JOIN + [] == ['\\', '\n'] && ['\n'] + [] == ['\n'];
  }

  lemma {:induction false} PieceAlone(p: string)
    requires IsPiece(p)
    ensures Pieces(p) == [p]
  {
    hide Pieces, IsPiece, IndexOf;
    assert ArePieces([p]);
    ConcatSplits([p]);
    assert [p][1..] == [];
    Seqs.Empty(p);
  }

  /** A line that is copied, read once with its backslash and once without. */
  lemma {:induction false} ContinuedPiece(body: string, f: string -> string)
    requires IsBody(body) && Starts(body, ENV_DEP)
    ensures Pieces(body + ['\n']) == [body + ['\n']]
    ensures ReadPieces([body + ['\n']]).env == LineEnv(body)
    ensures Concat(RewrittenPieces([body + ['\n']], f)) == body + ['\n']
  {
    hide LineEnv, LineFiles, RewriteBody, Starts, Pieces, LineOf, BodyOf;
    var p := body + ['\n'];
    EndedPieceParts(body, f);
    PieceAlone(p);
    Seqs.Empty(p);
    assert [p][1..] == [];
    assert RewrittenPieces([p], f) == [p];
    assert LineEnv(body) + {} == LineEnv(body);
  }

  lemma {:induction false} EndedPieceParts(body: string, f: string -> string)
    requires IsBody(body) && Starts(body, ENV_DEP)
    ensures var p := body + ['\n'];
      IsPiece(p) && LineOf(p) == body && RewritePiece(p, f) == p
  {
    hide RewriteBody, Starts, LineOf, BodyOf;
    var p := body + ['\n'];
    EndedLine(body, ['\n']);
    PieceParts(p);
    BodyReads(body);
    MarkedIsKept(body, f);
    assert p[..|p| - 1] == body;
  }

  lemma {:induction false} EndingOnly(b: string)
    requires |b| > 0 && NoLineFeed(b)
    ensures Pieces(b) == [b] && ReadPieces([b]).env == LineEnv(b)
  {
    hide LineEnv, LineFiles;
    assert IndexOf(b, '\n') == |b|;
    OneReading(b);
  }
}
