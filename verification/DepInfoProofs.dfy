/** Rewriting a dependency file and reading it commute. */
module DepInfoProofs {
  import opened Results
  import opened Replace
  import opened DepInfo
  import Seqs

  // ----- Words written and read back ---------------------------------------

  /** A word that survives being written: not empty, no white space but
      spaces, and no backslash at the end to escape what follows. */
  predicate WordOk(w: string) {
    |w| > 0 && w[|w| - 1] != '\\' && forall i :: 0 <= i < |w| ==> IsSpace(w[i]) ==> w[i] == ' '
  }

  ghost predicate WordsOk(words: seq<string>) {
    forall i :: 0 <= i < |words| ==> WordOk(words[i])
  }

  predicate NotAfterBackslash(w: string, rest: string) {
    |rest| > 0 && rest[0] == ' ' ==> |w| == 0 || w[|w| - 1] != '\\'
  }

  lemma {:induction false} SpaceReads(tail: string, current: string)
    ensures WordsFrom(['\\', ' '] + tail, current) == WordsFrom(tail, current + [' '])
  {
    assert (['\\', ' '] + tail)[2..] == tail;
  }

  lemma {:induction false} CharacterReads(c: char, tail: string, current: string)
    requires !IsSpace(c) && (c == '\\' ==> |tail| == 0 || tail[0] != ' ')
    ensures WordsFrom([c] + tail, current) == WordsFrom(tail, current + [c])
  {
    assert ([c] + tail)[1..] == tail;
  }

  lemma {:induction false} EscapedReads(w: string, rest: string, current: string)
    requires forall i :: 0 <= i < |w| ==> IsSpace(w[i]) ==> w[i] == ' '
    requires NotAfterBackslash(w, rest)
    ensures WordsFrom(Escaped(w) + rest, current) == WordsFrom(rest, current + w)
    decreases |w|
  {
    if |w| == 0 {
      assert Escaped(w) + rest == rest && current + w == current;
    } else {
      var tail := Escaped(w[1..]) + rest;
      Seqs.Assoc(current, [w[0]], w[1..]);
      assert w == [w[0]] + w[1..];
      EscapedReads(w[1..], rest, current + [w[0]]);
      HeadOfEscaped(w[1..], rest);
      EscapedIs(w);
      hide Escaped;
      if w[0] == ' ' {
        Seqs.Assoc(['\\', ' '], Escaped(w[1..]), rest);
        SpaceReads(tail, current);
      } else {
        Seqs.Assoc([w[0]], Escaped(w[1..]), rest);
        CharacterReads(w[0], tail, current);
      }
    }
  }

  /** An escaped word never shows a bare space first. */
  lemma {:induction false} HeadOfEscaped(w: string, rest: string)
    ensures |w| > 0 ==> |Escaped(w)| > 0 && Escaped(w)[0] != ' '
    ensures |w| == 0 ==> Escaped(w) + rest == rest
  {
  }

  lemma {:induction false} SpaceFlushes(rest: string, current: string)
    requires |current| > 0
    ensures WordsFrom([' '] + rest, current) == [current] + WordsFrom(rest, [])
  {
    assert ([' '] + rest)[1..] == rest;
  }

  function EscapedAll(words: seq<string>): seq<string> {
    seq(|words|, i requires 0 <= i < |words| => Escaped(words[i]))
  }

  /** Words written with their spaces escaped read back as they were. */
  lemma {:induction false} JoinedReads(words: seq<string>)
    requires WordsOk(words)
    ensures Words(Joined(EscapedAll(words))) == words
  {
    if |words| == 0 {
      assert EscapedAll(words) == [];
    } else {
      var w, rest := words[0], words[1..];
      assert EscapedAll(words)[0] == Escaped(w);
      assert EscapedAll(words)[1..] == EscapedAll(rest);
      assert words == [w] + rest;
      Seqs.Empty(w);
      if |words| == 1 {
        EscapedReads(w, [], []);
        Seqs.Empty(Escaped(w));
        assert rest == [];
      } else {
        var tail := Joined(EscapedAll(rest));
        JoinedReads(rest);
        Seqs.Assoc(Escaped(w), [' '], tail);
        EscapedReads(w, [' '] + tail, []);
        SpaceFlushes(tail, w);
      }
    }
  }

  // ----- What a rewritten line looks like ----------------------------------

  /** A rewritten target must not end in a colon. */
  predicate TargetOk(w: string) {
    !EndsWith(w, ':')
  }

  /** Every space stands behind a backslash. */
  predicate SpacesEscaped(s: string) {
    forall i :: 0 <= i < |s| && s[i] == ' ' ==> i > 0 && s[i - 1] == '\\'
  }

  /** No white space but spaces, so no line endings either. */
  predicate OneLine(s: string) {
    forall i :: 0 <= i < |s| ==> IsSpace(s[i]) ==> s[i] == ' '
  }

  lemma {:induction false} EscapedSpaces(w: string)
    ensures SpacesEscaped(Escaped(w))
  {
    if |w| > 0 {
      EscapedSpaces(w[1..]);
      EscapedIs(w);
      hide Escaped;
      var tail := Escaped(w[1..]);
      if w[0] == ' ' {
        assert forall i :: 2 <= i < |tail| + 2 ==> (['\\', ' '] + tail)[i] == tail[i - 2];
      } else {
        assert forall i :: 1 <= i < |tail| + 1 ==> ([w[0]] + tail)[i] == tail[i - 1];
      }
    }
  }

  lemma {:induction false} EscapedIs(w: string)
    requires |w| > 0
    ensures Escaped(w) == (if w[0] == ' ' then ['\\', ' '] else [w[0]]) + Escaped(w[1..])
  {
  }

  lemma {:induction false} EscapedOneLine(w: string)
    requires OneLine(w)
    ensures OneLine(Escaped(w))
  {
    if |w| > 0 {
      EscapedOneLine(w[1..]);
    }
  }

  lemma {:induction false} EscapedEnds(w: string)
    ensures |Escaped(w)| >= |w| && (|w| > 0 ==> Escaped(w)[|Escaped(w)| - 1] == w[|w| - 1])
  {
    if |w| > 0 {
      EscapedEnds(w[1..]);
    }
  }

  lemma {:induction false} EscapedSign(w: string)
    requires Escaped(w) == ['#']
    ensures w == ['#']
  {
    EscapedEnds(w);
    assert |w| == 1 && w == [w[0]];
  }

  lemma {:induction false} EscapedShape(w: string)
    requires OneLine(w)
    ensures SpacesEscaped(Escaped(w)) && OneLine(Escaped(w))
    ensures |Escaped(w)| >= |w| && (|w| > 0 ==> Escaped(w)[|Escaped(w)| - 1] == w[|w| - 1])
  {
    EscapedSpaces(w);
    EscapedOneLine(w);
    EscapedEnds(w);
  }

  lemma {:induction false} HeadAndTail(words: seq<string>)
    requires |words| > 0
    ensures EscapedAll(words) == [Escaped(words[0])] + EscapedAll(words[1..])
    ensures Joined(EscapedAll(words)) == Escaped(words[0])
      + if |words| == 1 then [] else [' '] + Joined(EscapedAll(words[1..]))
  {
    hide Escaped;
    var rest := EscapedAll(words[1..]);
    assert EscapedAll(words) == [Escaped(words[0])] + rest;
    assert EscapedAll(words)[1..] == rest;
    Seqs.Empty(Escaped(words[0]));
    if |words| > 1 {
      Seqs.Assoc(Escaped(words[0]), [' '], Joined(rest));
    }
  }

  /** No colon stands before a space. */
  predicate NoSeparator(s: string) {
    forall i :: 0 <= i < |s| - 1 ==> !(s[i] == ':' && s[i + 1] == ' ')
  }

  ghost predicate AllTargets(words: seq<string>) {
    forall i :: 0 <= i < |words| ==> TargetOk(words[i])
  }

  lemma {:induction false} JoinedShape(words: seq<string>)
    requires WordsOk(words)
    ensures OneLine(Joined(EscapedAll(words))) && !EndsWith(Joined(EscapedAll(words)), '\\')
    ensures |words| > 0 ==> |Joined(EscapedAll(words))| > 0
  {
    hide Escaped, Joined;
    if |words| > 0 {
      HeadAndTail(words);
      EscapedShape(words[0]);
      if |words| > 1 {
        JoinedShape(words[1..]);
      }
    } else {
      NoWordsJoined(words);
    }
  }

  lemma {:induction false} NoWordsJoined(words: seq<string>)
    requires |words| == 0
    ensures Joined(EscapedAll(words)) == []
  {
  }

  lemma {:induction false} JoinedTargets(words: seq<string>)
    requires WordsOk(words) && AllTargets(words)
    ensures NoSeparator(Joined(EscapedAll(words)))
  {
    hide Escaped, Joined;
    if |words| > 0 {
      HeadAndTail(words);
      EscapedShape(words[0]);
      var e := Escaped(words[0]);
      if |words| > 1 {
        JoinedTargets(words[1..]);
        SeparatedByOne(e, Joined(EscapedAll(words[1..])));
        Seqs.Assoc(e, [' '], Joined(EscapedAll(words[1..])));
      } else {
        Seqs.Empty(e);
      }
    } else {
      NoWordsJoined(words);
    }
  }

  lemma {:induction false} SeparatedByOne(a: string, b: string)
    requires SpacesEscaped(a) && !EndsWith(a, ':') && NoSeparator(b)
    ensures NoSeparator(a + [' '] + b)
  {
    var s := a + [' '] + b;
    forall i | 0 <= i < |s| - 1
      ensures !(s[i] == ':' && s[i + 1] == ' ')
    {
      if i > |a| {
        assert s[i] == b[i - |a| - 1] && s[i + 1] == b[i - |a|];
      }
    }
  }

  // ----- What reads as an environment dependency ---------------------------

  const NAME_PART := "env-dep:"

  /** The words, followed by a colon, begin like an environment dependency. */
  predicate BeginsEnvDep(words: seq<string>) {
    |words| > 1 && words[0] == ['#'] && Starts(words[1] + [if |words| == 2 then ':' else ' '], NAME_PART)
  }

  predicate ColonLast(p: string) {
    forall i :: 0 <= i < |p| ==> p[i] != ' ' && p[i] != '\\' && (p[i] == ':' ==> i == |p| - 1)
  }

  lemma {:induction false} StartsUncons(a: string, b: string)
    requires |b| > 0
    ensures Starts(a, b) <==> |a| > 0 && a[0] == b[0] && Starts(a[1..], b[1..])
  {
    if |b| <= |a| {
      assert b == [b[0]] + b[1..];
      assert a[..|b|] == [a[0]] + a[1..][..|b| - 1];
      if Starts(a, b) {
        assert a[..|b|][0] == b[0] && a[..|b|][1..] == b[1..];
      }
    }
  }

  /** A prefix without spaces sees no escapes. */
  lemma {:induction false} EscapedStarts(w: string, rest: string, p: string)
    requires ColonLast(p) && |p| > 0 && |rest| > 0 && (rest[0] == ':' || rest[0] == ' ')
    ensures Starts(Escaped(w) + rest, p) <==> Starts(w + [rest[0]], p)
    decreases |w|
  {
    hide Starts;
    if |w| == 0 {
      Seqs.Empty(rest);
      assert Escaped(w) + rest == rest && w + [rest[0]] == [rest[0]];
      StartsUncons(rest, p);
      StartsUncons([rest[0]], p);
      if rest[0] == p[0] {
        assert p[1..] == [];
        StartsNothing(rest[1..]);
        StartsNothing([rest[0]][1..]);
      }
    } else {
      EscapedIs(w);
      var tail := Escaped(w[1..]) + rest;
      StartsUncons(Escaped(w) + rest, p);
      StartsUncons(w + [rest[0]], p);
      hide Escaped;
      if w[0] != ' ' {
        Seqs.Assoc([w[0]], Escaped(w[1..]), rest);
        assert ([w[0]] + tail)[1..] == tail;
        assert (w + [rest[0]])[1..] == w[1..] + [rest[0]];
        if |p| == 1 {
          assert p[1..] == [];
          StartsNothing(tail);
          StartsNothing(w[1..] + [rest[0]]);
        } else {
          EscapedStarts(w[1..], rest, p[1..]);
        }
      }
    }
  }

  lemma {:induction false} StartsNothing(a: string)
    ensures Starts(a, [])
  {
  }

  /** A line reads as an environment dependency if it is a comment, a space, and
      then the rest of the mark. */
  lemma {:induction false} EnvDepParts(s: string)
    ensures Starts(s, ENV_DEP) <==> |s| > 1 && s[0] == '#' && s[1] == ' ' && Starts(s[2..], NAME_PART)
  {
    assert ENV_DEP[1..][1..] == NAME_PART;
    StartsUncons(s, ENV_DEP);
    if |s| > 0 {
      StartsUncons(s[1..], ENV_DEP[1..]);
      if |s| > 1 {
        assert s[1..][1..] == s[2..];
      }
    }
  }

  /** Rewritten targets begin an environment dependency exactly if the first of
      them is a number sign and the next begins with the rest of the mark. */
  lemma {:induction false} TargetsBeginEnvDep(words: seq<string>, more: string)
    requires WordsOk(words) && |more| > 0 && more[0] == ':'
    ensures Starts(Joined(EscapedAll(words)) + more, ENV_DEP) <==> BeginsEnvDep(words)
  {
    hide Escaped, Joined, Starts, EscapedAll, SpacesEscaped;
    var s := Joined(EscapedAll(words)) + more;
    EnvDepParts(s);
    if |words| == 0 {
      NoWordsJoined(words);
      assert s == more;
    } else {
      HeadAndTail(words);
      EscapedShape(words[0]);
      var e := Escaped(words[0]);
      if |words| == 1 {
        Seqs.Empty(e);
        assert |e| > 1 ==> s[1] == e[1];
        assert |e| == 1 ==> s[1] == more[0];
      } else {
        var rest := Joined(EscapedAll(words[1..])) + more;
        assert s == e + [' '] + rest;
        if s[0] == '#' && s[1] == ' ' {
          assert |e| == 1 && e == ['#'];
          EscapedSign(words[0]);
        }
        if words[0] == ['#'] {
          SignEscaped();
          assert s[2..] == rest;
          SecondBegins(words[1..], more);
        }
      }
    }
  }

  lemma {:induction false} SignEscaped()
    ensures Escaped(['#']) == ['#']
  {
  }

  lemma {:induction false} SecondBegins(words: seq<string>, more: string)
    requires |words| > 0 && |more| > 0 && more[0] == ':'
    ensures Starts(Joined(EscapedAll(words)) + more, NAME_PART)
      <==> Starts(words[0] + [if |words| == 1 then ':' else ' '], NAME_PART)
  {
    hide Escaped, Joined, Starts;
    HeadAndTail(words);
    var e := Escaped(words[0]);
    if |words| == 1 {
      Seqs.Empty(e);
      EscapedStarts(words[0], more, NAME_PART);
    } else {
      var rest := Joined(EscapedAll(words[1..])) + more;
      assert Joined(EscapedAll(words)) + more == e + ([' '] + rest);
      EscapedStarts(words[0], [' '] + rest, NAME_PART);
    }
  }

  lemma {:induction false} SeparatorAfter(a: string, rest: string)
    requires NoSeparator(a) && |rest| > 0 && rest[0] == ':'
    ensures Separator(a + rest) == |a| + Separator(rest)
  {
    if |a| == 0 {
      assert a + rest == rest;
    } else {
      assert (a + rest)[1..] == a[1..] + rest;
      SeparatorAfter(a[1..], rest);
      assert !((a + rest)[0] == ':' && (a + rest)[1] == ' ') by {
        if |a| > 1 {
          assert (a + rest)[1] == a[1];
        }
      }
    }
  }

  // ----- One line ----------------------------------------------------------

  predicate IsComment(body: string) {
    |body| > 0 && body[0] == '#'
  }

  /** What a line has before its colon. */
  function TargetsOf(body: string): string {
    var i := Separator(body);
    if IsComment(body) then []
    else if i < |body| then body[..i]
    else if EndsWith(body, ':') then body[..|body| - 1]
    else []
  }

  /** What a line has after its colon. */
  function DependenciesOf(body: string): string {
    var i := Separator(body);
    if IsComment(body) || i == |body| then [] else body[i + 2..]
  }

  function Images(words: seq<string>, f: string -> string): seq<string> {
    seq(|words|, i requires 0 <= i < |words| => f(words[i]))
  }

  /** What is asked of the rewriting, on the words of this line and no others. */
  ghost predicate ResultsOk(body: string, f: string -> string) {
    && WordsOk(Images(Words(TargetsOf(body)), f)) && AllTargets(Images(Words(TargetsOf(body)), f))
    && WordsOk(Images(Words(DependenciesOf(body)), f))
  }

  lemma {:induction false} RewriteWordsIs(value: string, f: string -> string)
    requires WordsOk(Images(Words(value), f))
    ensures RewriteWords(value, f) == Joined(EscapedAll(Images(Words(value), f)))
    ensures Words(RewriteWords(value, f)) == Images(Words(value), f)
    ensures OneLine(RewriteWords(value, f)) && !EndsWith(RewriteWords(value, f), '\\')
  {
    hide Words, Escaped, Joined;
    var images := Images(Words(value), f);
    assert EscapedAll(images) == Mapped(Words(value), f);
    JoinedReads(images);
    JoinedShape(images);
  }

  /** A comment survives if it is an environment dependency or none of its words
      changes, and any other line unless its new targets begin an environment
      dependency. */
  ghost predicate LineKept(body: string, f: string -> string) {
    if IsComment(body) then Starts(body, ENV_DEP) || forall i :: 0 <= i < |LineFiles(body)| ==> f(LineFiles(body)[i]) == LineFiles(body)[i]
    else !BeginsEnvDep(Images(Words(TargetsOf(body)), f))
  }

  /** The rewritten line has the rewritten dependencies and the same environment
      dependency. */
  ghost predicate LineCommutes(body: string, f: string -> string) {
    LineFiles(RewriteBody(body, f)) == Images(LineFiles(body), f) && LineEnv(RewriteBody(body, f)) == LineEnv(body)
  }

  lemma {:induction false} LineCommutesExactly(body: string, f: string -> string)
    requires ResultsOk(body, f)
    ensures LineCommutes(body, f) <==> LineKept(body, f)
  {
    hide Words, RewriteWords, Separator, WordsOk, AllTargets, BeginsEnvDep, Starts;
    var i := Separator(body);
    if IsComment(body) {
      CommentCommutes(body, f);
    } else {
      EnvDepParts(body);
      if i < |body| {
        DependenciesCommute(body[..i], body[i + 2..], f);
      } else if EndsWith(body, ':') {
        TargetsAloneCommute(body[..|body| - 1], f);
        NoImages(f);
      } else {
        NoWords();
        NoImages(f);
        NoneBegin(Images([], f));
      }
    }
  }

  lemma {:induction false} NoWords()
    ensures Words([]) == []
  {
  }

  lemma {:induction false} NoImages(f: string -> string)
    ensures Images([], f) == []
  {
  }

  lemma {:induction false} NoneBegin(words: seq<string>)
    requires |words| == 0
    ensures !BeginsEnvDep(words)
  {
  }

  lemma {:induction false} CommentCommutes(body: string, f: string -> string)
    requires IsComment(body)
    ensures LineCommutes(body, f) <==> LineKept(body, f)
  {
    hide Words, RewriteWords, Separator, Starts;
    assert RewriteBody(body, f) == body;
    var files := LineFiles(body);
    NoImages(f);
    if files == Images(files, f) {
      forall i | 0 <= i < |files|
        ensures f(files[i]) == files[i]
      {
        assert files[i] == Images(files, f)[i];
      }
    }
    if Starts(body, ENV_DEP) {
      assert files == [] && Images(files, f) == files;
    }
  }

  lemma {:induction false} DependenciesCommute(targets: string, dependencies: string, f: string -> string)
    requires WordsOk(Images(Words(targets), f)) && AllTargets(Images(Words(targets), f))
    requires WordsOk(Images(Words(dependencies), f))
    ensures var line := RewriteWords(targets, f) + [':', ' '] + RewriteWords(dependencies, f);
      if BeginsEnvDep(Images(Words(targets), f)) then LineEnv(line) != {}
      else LineEnv(line) == {} && LineFiles(line) == Images(Words(dependencies), f)
  {
    hide Words, Joined, EscapedAll, Escaped, WordsOk, AllTargets, BeginsEnvDep, Starts, Separator;
    var t, d := RewriteWords(targets, f), RewriteWords(dependencies, f);
    RewriteWordsIs(targets, f);
    RewriteWordsIs(dependencies, f);
    hide RewriteWords;
    JoinedTargets(Images(Words(targets), f));
    var more := [':', ' '] + d;
    Seqs.Assoc(t, [':', ' '], d);
    SeparatorAfter(t, more);
    SeparatorFirst(d);
    TargetsBeginEnvDep(Images(Words(targets), f), more);
    assert (t + more)[|t| + 2..] == d;
    EnvDepReads(t + more);
  }

  lemma {:induction false} EnvDepReads(line: string)
    ensures Starts(line, ENV_DEP) <==> LineEnv(line) != {}
    ensures Starts(line, ENV_DEP) ==> LineFiles(line) == []
  {
    if Starts(line, ENV_DEP) {
      assert EnvOf(line[|ENV_DEP|..]) in LineEnv(line);
    }
  }

  lemma {:induction false} SeparatorFirst(d: string)
    ensures Separator([':', ' '] + d) == 0
  {
  }

  lemma {:induction false} SeparatorNone()
    ensures Separator([':']) == 1
  {
  }

  lemma {:induction false} TargetsAloneCommute(targets: string, f: string -> string)
    requires WordsOk(Images(Words(targets), f)) && AllTargets(Images(Words(targets), f))
    ensures var line := RewriteWords(targets, f) + [':'];
      LineFiles(line) == [] && (BeginsEnvDep(Images(Words(targets), f)) <==> LineEnv(line) != {})
  {
    hide Words, Joined, EscapedAll, Escaped, WordsOk, AllTargets, BeginsEnvDep, Starts, Separator;
    var t := RewriteWords(targets, f);
    RewriteWordsIs(targets, f);
    hide RewriteWords;
    JoinedTargets(Images(Words(targets), f));
    SeparatorAfter(t, [':']);
    SeparatorNone();
    TargetsBeginEnvDep(Images(Words(targets), f), [':']);
    EnvDepReads(t + [':']);
  }

  // ----- Line endings ------------------------------------------------------

  lemma {:induction false} WordsIgnoreReturn(value: string, current: string)
    ensures WordsFrom(value + ['\r'], current) == WordsFrom(value, current)
    decreases |value|
  {
    var v := value + ['\r'];
    if |value| == 0 {
      assert v[1..] == [] && Flushed(current) + [] == Flushed(current);
    } else {
      assert v[0] == value[0] && v[1..] == value[1..] + ['\r'];
      WordsIgnoreReturn(value[1..], []);
      WordsIgnoreReturn(value[1..], current + [value[0]]);
      if |value| > 1 {
        assert v[1] == value[1] && v[2..] == value[2..] + ['\r'];
        WordsIgnoreReturn(value[2..], current + [' ']);
      }
    }
  }

  lemma {:induction false} SeparatorIgnoresReturn(s: string)
    ensures Separator(s + ['\r']) == if Separator(s) < |s| then Separator(s) else |s| + 1
  {
    if |s| > 0 {
      assert (s + ['\r'])[1..] == s[1..] + ['\r'];
      SeparatorIgnoresReturn(s[1..]);
      assert |s| > 1 ==> (s + ['\r'])[1] == s[1];
    }
  }

  lemma {:induction false} MarkIgnoresReturn(s: string)
    ensures Starts(s + ['\r'], ENV_DEP) <==> Starts(s, ENV_DEP)
  {
    var t := s + ['\r'];
    if |s| >= |ENV_DEP| {
      assert t[..|ENV_DEP|] == s[..|ENV_DEP|];
    } else if |t| == |ENV_DEP| {
      assert t[..|ENV_DEP|][|s|] == '\r';
    }
  }

  lemma {:induction false} WordsKeepReturn(value: string)
    ensures Words(value + ['\r']) == Words(value)
  {
    WordsIgnoreReturn(value, []);
  }

  lemma {:induction false} FilesIgnoreReturn(s: string)
    ensures LineFiles(s + ['\r']) == LineFiles(s)
  {
    hide Starts, Words, Separator;
    var t, i := s + ['\r'], Separator(s);
    MarkIgnoresReturn(s);
    SeparatorIgnoresReturn(s);
    if i < |s| {
      assert t[i + 2..] == s[i + 2..] + ['\r'];
      WordsKeepReturn(s[i + 2..]);
    }
  }

  /** A line body: no line feed, no carriage return at the end. */
  predicate IsBody(s: string) {
    !EndsWith(s, '\r') && forall i :: 0 <= i < |s| ==> s[i] != '\n'
  }

  predicate NoLineFeed(s: string) {
    forall i :: 0 <= i < |s| ==> s[i] != '\n'
  }

  lemma {:induction false} BodyReads(s: string)
    requires NoLineFeed(s)
    ensures IsBody(BodyOf(s)) && |BodyOf(s)| <= |s| && LineFiles(BodyOf(s)) == LineFiles(s)
    ensures Starts(BodyOf(s), ENV_DEP) <==> Starts(s, ENV_DEP)
    ensures |BodyOf(s)| < |s| <==> EndsWith(s, '\r')
    ensures !EndsWith(s, '\r') ==> BodyOf(s) == s
  {
    hide LineFiles, Starts;
    if EndsWith(s, '\r') {
      var front := s[..|s| - 1];
      assert s == front + ['\r'];
      BodyReads(front);
      FilesIgnoreReturn(front);
      MarkIgnoresReturn(front);
    }
  }

  lemma {:induction false} EnvIsInjective(a: string, b: string)
    requires EnvOf(a) == EnvOf(b)
    ensures a == b
  {
    var i, j := IndexOf(a, '='), IndexOf(b, '=');
    if i < |a| {
      assert a == a[..i] + ['='] + a[i + 1..];
      assert b == b[..j] + ['='] + b[j + 1..];
    }
  }

  /** Only an environment dependency can tell a line from its body. */
  lemma {:induction false} EnvOfBody(s: string)
    requires NoLineFeed(s)
    ensures LineEnv(BodyOf(s)) == LineEnv(s) <==> !(Starts(s, ENV_DEP) && EndsWith(s, '\r'))
  {
    BodyReads(s);
    var body := BodyOf(s);
    if Starts(s, ENV_DEP) && EndsWith(s, '\r') {
      if EnvOf(body[|ENV_DEP|..]) == EnvOf(s[|ENV_DEP|..]) {
        EnvIsInjective(body[|ENV_DEP|..], s[|ENV_DEP|..]);
        assert false;
      }
      assert EnvOf(body[|ENV_DEP|..]) in LineEnv(body);
    }
  }

  /** A line with its ending: a line feed only at the end. */
  predicate IsPiece(p: string) {
    |p| > 0 && forall i :: 0 <= i < |p| - 1 ==> p[i] != '\n'
  }

  predicate IsEnding(e: string) {
    e == [] || e == ['\n'] || e == ['\r', '\n']
  }

  lemma {:induction false} PieceParts(p: string)
    requires IsPiece(p)
    ensures NoLineFeed(LineOf(p)) && BodyOf(p) == BodyOf(LineOf(p))
    ensures IsEnding(EndingOf(p)) && (EndsWith(p, '\n') <==> |EndingOf(p)| > 0)
  {
    if EndsWith(p, '\n') {
      var q := p[..|p| - 1];
      assert BodyOf(p) == BodyOf(q);
      if EndsWith(q, '\r') {
        assert q[..|q| - 1] == LineOf(p);
        assert BodyOf(q) == BodyOf(q[..|q| - 1]);
      }
    }
  }

  lemma {:induction false} EndedLine(b: string, ending: string)
    requires IsBody(b) && IsEnding(ending)
    ensures LineOf(b + ending) == b
  {
    var r := b + ending;
    if |ending| == 0 {
      assert r == b;
    } else if |ending| == 1 {
      assert r[..|r| - 1] == b;
    } else {
      assert r[..|r| - 1] == b + ['\r'] && r[..|r| - 2] == b;
    }
  }

  lemma {:induction false} DependencyBody(t: string, d: string)
    requires OneLine(t) && OneLine(d) && !EndsWith(d, '\\')
    ensures IsBody(t + [':', ' '] + d) && !EndsWith(t + [':', ' '] + d, '\\')
  {
    var s := t + [':', ' '] + d;
    assert |d| > 0 ==> s[|s| - 1] == d[|d| - 1];
  }

  /** A line that is copied as it stands, and whose last character would join it
      to the next one. */
  predicate Continues(p: string) {
    && |EndingOf(p)| > 0 && EndsWith(BodyOf(p), '\\')
    && (IsComment(BodyOf(p)) || Separator(BodyOf(p)) == |BodyOf(p)|)
  }

  lemma {:induction false} RewrittenBody(body: string, f: string -> string)
    requires ResultsOk(body, f) && IsBody(body)
    ensures var r := RewriteBody(body, f);
      IsBody(r) && (EndsWith(r, '\\') ==> EndsWith(body, '\\') && (IsComment(body) || Separator(body) == |body|))
  {
    hide Words, RewriteWords, WordsOk, AllTargets;
    var i := Separator(body);
    if IsComment(body) {
    } else if i < |body| {
      RewriteWordsIs(body[..i], f);
      RewriteWordsIs(body[i + 2..], f);
      DependencyBody(RewriteWords(body[..i], f), RewriteWords(body[i + 2..], f));
    } else if EndsWith(body, ':') {
      RewriteWordsIs(body[..|body| - 1], f);
    }
  }

  /** As for a line, and an environment dependency must not end in a carriage
      return besides its line ending. */
  ghost predicate PieceKept(p: string, f: string -> string) {
    LineKept(BodyOf(p), f) && !(Starts(LineOf(p), ENV_DEP) && EndsWith(LineOf(p), '\r'))
  }

  ghost predicate PieceCommutes(p: string, f: string -> string) {
    var r := RewritePiece(p, f);
    LineFiles(LineOf(r)) == Images(LineFiles(LineOf(p)), f) && LineEnv(LineOf(r)) == LineEnv(LineOf(p))
  }

  lemma {:induction false} PieceCommutesExactly(p: string, f: string -> string)
    requires IsPiece(p) && ResultsOk(BodyOf(p), f)
    ensures PieceCommutes(p, f) <==> PieceKept(p, f)
  {
    hide RewriteBody, LineKept, LineOf, EndingOf, LineFiles, BodyOf, ResultsOk, Starts, IsPiece, LineEnv, IsBody;
    var line, body := LineOf(p), BodyOf(p);
    PieceParts(p);
    BodyReads(line);
    RewrittenBody(body, f);
    EndedLine(RewriteBody(body, f), EndingOf(p));
    LineCommutesExactly(body, f);
    EnvOfBody(line);
    EnvDepReads(line);
    EnvDepReads(body);
    if Starts(line, ENV_DEP) {
      MarkedIsKept(body, f);
    }
  }

  lemma {:induction false} MarkedIsKept(body: string, f: string -> string)
    requires Starts(body, ENV_DEP)
    ensures LineKept(body, f) && RewriteBody(body, f) == body
  {
    hide Starts;
    EnvDepParts(body);
  }

  // ----- The whole file ----------------------------------------------------

  ghost predicate ArePieces(ps: seq<string>) {
    forall k :: 0 <= k < |ps| ==> IsPiece(ps[k]) && (k < |ps| - 1 ==> EndsWith(ps[k], '\n'))
  }

  lemma {:induction false} FirstPiece(text: string, i: nat)
    requires i < |text| && text[i] == '\n' && forall k :: 0 <= k < i ==> text[k] != '\n'
    ensures IsPiece(text[..i + 1]) && EndsWith(text[..i + 1], '\n')
  {
  }

  lemma {:induction false} OneMorePiece(p: string, ps: seq<string>)
    requires IsPiece(p) && EndsWith(p, '\n') && ArePieces(ps)
    ensures ArePieces([p] + ps) && Concat([p] + ps) == p + Concat(ps)
  {
    hide IsPiece, EndsWith;
    assert ([p] + ps)[1..] == ps;
  }

  lemma {:induction false} PiecesArePieces(text: string)
    ensures ArePieces(Pieces(text)) && Concat(Pieces(text)) == text
    decreases |text|
  {
    if |text| > 0 {
      var i := IndexOf(text, '\n');
      if i < |text| {
        hide ArePieces, IsPiece, Concat;
        PiecesArePieces(text[i + 1..]);
        assert text == text[..i + 1] + text[i + 1..];
        FirstPiece(text, i);
        OneMorePiece(text[..i + 1], Pieces(text[i + 1..]));
      } else {
        assert text + [] == text && [text][1..] == [];
      }
    }
  }

  lemma {:induction false} IndexAfter(a: string, b: string)
    requires EndsWith(a, '\n') && IsPiece(a)
    ensures IndexOf(a + b, '\n') == |a| - 1
  {
    var i := IndexOf(a + b, '\n');
    assert (a + b)[|a| - 1] == '\n';
    assert forall k :: 0 <= k < |a| - 1 ==> (a + b)[k] == a[k];
  }

  lemma {:induction false} ConcatSplits(ps: seq<string>)
    requires ArePieces(ps)
    ensures Pieces(Concat(ps)) == ps
  {
    if |ps| > 0 {
      var p, rest := ps[0], Concat(ps[1..]);
      assert ps == [p] + ps[1..];
      ConcatSplits(ps[1..]);
      if EndsWith(p, '\n') {
        IndexAfter(p, rest);
        assert (p + rest)[..|p|] == p && (p + rest)[|p|..] == rest;
      } else {
        assert ps[1..] == [] && p + rest == p;
        assert forall k :: 0 <= k < |p| ==> p[k] != '\n';
      }
    }
  }

  /** No line feed behind a backslash, with or without a carriage return
      between them. */
  predicate NoJoin(s: string) {
    forall i :: 0 < i < |s| && s[i] == '\n' ==> s[i - 1] != '\\' && (i > 1 && s[i - 1] == '\r' ==> s[i - 2] != '\\')
  }

  lemma {:induction false} JoinsAt(s: string, i: nat)
    requires i <= |s|
    ensures FoundAt(s, CRLF_JOIN, i) ==> i + 3 <= |s| && s[i] == '\\' && s[i + 1] == '\r' && s[i + 2] == '\n'
    ensures FoundAt(s, LF_JOIN, i) ==> i + 2 <= |s| && s[i] == '\\' && s[i + 1] == '\n'
  {
    if i + 3 <= |s| {
      assert s[i..][..3] == [s[i], s[i + 1], s[i + 2]];
    }
    if i + 2 <= |s| {
      assert s[i..][..2] == [s[i], s[i + 1]];
    }
  }

  lemma {:induction false} NothingToJoin(s: string)
    requires NoJoin(s)
    ensures Logical(s) == s
  {
    forall i | 0 <= i <= |s|
      ensures !FoundAt(s, CRLF_JOIN, i) && !FoundAt(s, LF_JOIN, i)
    {
      JoinsAt(s, i);
    }
    NotFoundNotReplaced(s, CRLF_JOIN);
    NotFoundNotReplaced(s, LF_JOIN);
  }

  lemma {:induction false} NotFoundNotReplaced(s: string, from: string)
    requires |from| > 0 && forall i :: 0 <= i <= |s| ==> !FoundAt(s, from, i)
    ensures Replaced(s, from, []) == s
  {
    CopiesUntil(s, from, [], 0, |s|);
    assert s[0..] == s && s[0..|s|] == s && s[|s|..] == [];
    NothingLeft(from, []);
    assert s + [] == s;
  }

  lemma {:induction false} NoJoinConcat(a: string, b: string)
    requires NoJoin(a) && NoJoin(b) && (EndsWith(a, '\n') || |a| == 0 || |b| == 0)
    ensures NoJoin(a + b)
  {
    var s := a + b;
    forall i | 0 < i < |s| && s[i] == '\n'
      ensures s[i - 1] != '\\' && (i > 1 && s[i - 1] == '\r' ==> s[i - 2] != '\\')
    {
      if i >= |a| {
        assert s[i] == b[i - |a|];
        assert i > |a| ==> s[i - 1] == b[i - |a| - 1];
        assert i > |a| + 1 ==> s[i - 2] == b[i - |a| - 2];
      }
    }
  }

  lemma {:induction false} ConcatHasNoJoin(ps: seq<string>)
    requires ArePieces(ps) && forall k :: 0 <= k < |ps| ==> NoJoin(ps[k])
    ensures NoJoin(Concat(ps))
  {
    if |ps| > 0 {
      ConcatHasNoJoin(ps[1..]);
      NoJoinConcat(ps[0], Concat(ps[1..]));
    }
  }

  lemma {:induction false} EndedPiece(b: string, ending: string)
    requires IsBody(b) && IsEnding(ending) && (|ending| > 0 ==> !EndsWith(b, '\\'))
    ensures (|b| + |ending| > 0 ==> IsPiece(b + ending)) && NoJoin(b + ending)
    ensures |ending| > 0 ==> EndsWith(b + ending, '\n')
  {
  }

  /** What a file of lines needs to be read line by line; the last of them may
      be empty, and then it is none. */
  ghost predicate Readable(rs: seq<string>) {
    && (forall k :: 0 <= k < |rs| ==> NoJoin(rs[k]) && (|rs[k]| > 0 ==> IsPiece(rs[k])))
    && (forall k :: 0 <= k < |rs| - 1 ==> EndsWith(rs[k], '\n'))
  }

  function NonEmpty(rs: seq<string>): seq<string> {
    if |rs| > 0 && rs[|rs| - 1] == [] then rs[..|rs| - 1] else rs
  }

  lemma {:induction false} ConcatReads(rs: seq<string>)
    requires Readable(rs)
    ensures Parse(Concat(rs)) == ReadPieces(rs) && Pieces(Logical(Concat(rs))) == NonEmpty(rs)
  {
    hide Logical, Pieces, ReadPieces, Concat, NoJoin, IsPiece;
    if |rs| > 0 && rs[|rs| - 1] == [] {
      var front := rs[..|rs| - 1];
      assert rs == front + [[]];
      EmptyLineIsNone(front);
      assert Readable(front);
      assert ArePieces(front);
      ConcatHasNoJoin(front);
      NothingToJoin(Concat(front));
      ConcatSplits(front);
    } else {
      assert ArePieces(rs);
      ConcatHasNoJoin(rs);
      NothingToJoin(Concat(rs));
      ConcatSplits(rs);
    }
  }

  lemma {:induction false} EmptyLineIsNone(front: seq<string>)
    ensures Concat(front + [[]]) == Concat(front) && ReadPieces(front + [[]]) == ReadPieces(front)
  {
    var all := front + [[]];
    if |front| == 0 {
      assert all[1..] == [];
      EmptyLineReads();
      assert ReadPieces(all) == Dependencies(Elements([]) + {}, {} + {});
    } else {
      assert all[1..] == front[1..] + [[]];
      EmptyLineIsNone(front[1..]);
    }
  }

  lemma {:induction false} EmptyLineReads()
    ensures LineOf([]) == [] && LineFiles([]) == [] && LineEnv([]) == {}
  {
  }

  lemma {:induction false} ReadCommutes(ps: seq<string>, f: string -> string)
    requires forall k :: 0 <= k < |ps| ==> LineFiles(LineOf(RewritePiece(ps[k], f))) == Images(LineFiles(LineOf(ps[k])), f)
    requires forall k :: 0 <= k < |ps| ==> LineEnv(LineOf(RewritePiece(ps[k], f))) == LineEnv(LineOf(ps[k]))
    ensures ReadPieces(RewrittenPieces(ps, f)) == Dependencies(ImageOf(ReadPieces(ps).files, f), ReadPieces(ps).env)
  {
    hide LineFiles, LineEnv, RewritePiece, LineOf, Elements, Images, ImageOf;
    if |ps| > 0 {
      assert RewrittenPieces(ps, f)[1..] == RewrittenPieces(ps[1..], f);
      ReadCommutes(ps[1..], f);
      var files := LineFiles(LineOf(ps[0]));
      ImagesOf(files, f);
      ImageOfUnion(Elements(files), ReadPieces(ps[1..]).files, f);
    } else {
      ImageOfNothing(f);
    }
  }

  ghost function ImageOf(words: set<string>, f: string -> string): set<string> {
    set w | w in words :: f(w)
  }

  lemma {:induction false} ImageOfUnion(a: set<string>, b: set<string>, f: string -> string)
    ensures ImageOf(a + b, f) == ImageOf(a, f) + ImageOf(b, f)
  {
  }

  lemma {:induction false} ImageOfNothing(f: string -> string)
    ensures ImageOf({}, f) == {}
  {
  }

  lemma {:induction false} ImagesOf(words: seq<string>, f: string -> string)
    ensures Elements(Images(words, f)) == ImageOf(Elements(words), f)
  {
    forall v | v in Elements(Images(words, f))
      ensures exists w :: w in Elements(words) && f(w) == v
    {
      var k :| 0 <= k < |words| && Images(words, f)[k] == v;
      assert words[k] in Elements(words);
    }
    forall w | w in Elements(words)
      ensures f(w) in Elements(Images(words, f))
    {
      var k :| 0 <= k < |words| && words[k] == w;
      assert Images(words, f)[k] == f(w);
    }
  }

  /** The rewriting gives usable words for the words of this text, and no copied
      line joins the next. */
  ghost predicate TextOk(text: string, f: string -> string) {
    var ps := Pieces(Logical(text));
    forall k :: 0 <= k < |ps| ==> ResultsOk(BodyOf(ps[k]), f) && !Continues(ps[k])
  }

  /** Every line survives being rewritten. */
  ghost predicate TextKept(text: string, f: string -> string) {
    var ps := Pieces(Logical(text));
    forall k :: 0 <= k < |ps| ==> PieceKept(ps[k], f)
  }

  lemma {:induction false} RewrittenReadable(ps: seq<string>, f: string -> string)
    requires ArePieces(ps) && forall k :: 0 <= k < |ps| ==> ResultsOk(BodyOf(ps[k]), f) && !Continues(ps[k])
    ensures Readable(RewrittenPieces(ps, f))
  {
    forall k | 0 <= k < |ps|
      ensures var r := RewritePiece(ps[k], f);
        NoJoin(r) && (|r| > 0 ==> IsPiece(r)) && (EndsWith(ps[k], '\n') ==> EndsWith(r, '\n'))
    {
      RewrittenPiece(ps[k], f);
    }
  }

  lemma {:induction false} RewrittenPiece(p: string, f: string -> string)
    requires IsPiece(p) && ResultsOk(BodyOf(p), f) && !Continues(p)
    ensures var r := RewritePiece(p, f);
      NoJoin(r) && (|r| > 0 ==> IsPiece(r)) && (EndsWith(p, '\n') ==> EndsWith(r, '\n'))
  {
    hide RewriteBody, LineOf, EndingOf, BodyOf, ResultsOk, IsPiece, NoJoin, IsBody, Separator;
    PieceParts(p);
    BodyReads(LineOf(p));
    RewrittenBody(BodyOf(p), f);
    EndedPiece(RewriteBody(BodyOf(p), f), EndingOf(p));
  }

  /** Reading a rewritten dependency file gives the rewritten files and the
      same environment dependencies, line by line exactly if every line
      survives, and then as a whole. */
  lemma {:induction false} ParsingCommutesWithRewriting(text: string, f: string -> string)
    requires TextOk(text, f)
    ensures var ps := Pieces(Logical(text));
      (forall k :: 0 <= k < |ps| ==> PieceCommutes(ps[k], f)) <==> TextKept(text, f)
    ensures Parse(Rewrite(text, f)) == ReadPieces(RewrittenPieces(Pieces(Logical(text)), f))
    ensures TextKept(text, f) ==>
      Parse(Rewrite(text, f)) == Dependencies(ImageOf(Parse(text).files, f), Parse(text).env)
  {
    hide Logical, Pieces, ResultsOk, Continues, LineFiles, LineEnv, LineOf, BodyOf, RewritePiece, ReadPieces, PieceKept, Readable, IsPiece, Concat, ImageOf;
    var ps := Pieces(Logical(text));
    PiecesArePieces(Logical(text));
    RewrittenReadable(ps, f);
    ConcatReads(RewrittenPieces(ps, f));
    forall k | 0 <= k < |ps|
      ensures PieceCommutes(ps[k], f) <==> PieceKept(ps[k], f)
    {
      PieceCommutesExactly(ps[k], f);
    }
    if TextKept(text, f) {
      forall k | 0 <= k < |ps|
        ensures PieceCommutes(ps[k], f)
      {
        assert PieceKept(ps[k], f);
      }
      ReadCommutes(ps, f);
    }
  }
}
