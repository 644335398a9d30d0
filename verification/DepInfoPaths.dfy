/** Dependency files made portable and local again: the rewritings the program
    passes keep every plain line readable, and there and back names the same files. */
module DepInfoPaths {
  import opened Results
  import opened Replace
  import opened DepInfo
  import opened DepInfoProofs
  import N = Normalizer
  import Seqs

  // ----- Lines that any such rewriting keeps -------------------------------

  predicate BeginsWith(s: string, c: char) {
    |s| > 0 && s[0] == c
  }

  /** A name that may become part of a rewritten word. */
  predicate NameOk(s: string) {
    WordOk(s) && TargetOk(s) && !BeginsWith(s, '#')
  }

  predicate PlainLine(body: string) {
    && (forall i :: 0 <= i < |Words(TargetsOf(body))| ==> NameOk(Words(TargetsOf(body))[i]))
    && (forall i :: 0 <= i < |Words(DependenciesOf(body))| ==> WordOk(Words(DependenciesOf(body))[i]))
    && (IsComment(body) ==> Starts(body, ENV_DEP) || |LineFiles(body)| == 0)
  }

  predicate PlainPiece(p: string) {
    PlainLine(BodyOf(p)) && !Continues(p) && !(Starts(LineOf(p), ENV_DEP) && EndsWith(LineOf(p), '\r'))
  }

  /** Words that stay whole when they are written, targets that end in no colon
      and begin no comment, and comments that are environment dependencies or
      hold no dependencies. */
  ghost predicate PlainText(text: string) {
    var ps := Pieces(Logical(text));
    forall k :: 0 <= k < |ps| ==> PlainPiece(ps[k])
  }

  /** A rewriting that keeps usable words usable. */
  ghost predicate Keeps(f: string -> string) {
    && (forall w :: WordOk(w) ==> WordOk(f(w)))
    && (forall w :: NameOk(w) ==> NameOk(f(w)))
  }

  lemma {:induction false} PlainWordsKept(words: seq<string>, f: string -> string)
    requires Keeps(f)
    ensures (forall i :: 0 <= i < |words| ==> WordOk(words[i])) ==> WordsOk(Images(words, f))
    ensures (forall i :: 0 <= i < |words| ==> NameOk(words[i])) ==>
      forall i :: 0 <= i < |words| ==> NameOk(Images(words, f)[i])
  {
    hide WordOk, NameOk;
  }

  lemma {:induction false} PlainLineKept(body: string, f: string -> string)
    requires PlainLine(body) && Keeps(f)
    ensures ResultsOk(body, f) && LineKept(body, f)
  {
    hide Words, TargetsOf, DependenciesOf, WordOk, Keeps, LineFiles, Starts;
    var images := Images(Words(TargetsOf(body)), f);
    PlainWordsKept(Words(TargetsOf(body)), f);
    PlainWordsKept(Words(DependenciesOf(body)), f);
    assert forall i :: 0 <= i < |images| ==> NameOk(images[i]);
    if |images| > 0 {
      assert NameOk(images[0]);
    }
  }

  lemma {:induction false} PlainTextKept(text: string, f: string -> string)
    requires PlainText(text) && Keeps(f)
    ensures TextOk(text, f) && TextKept(text, f)
  {
    hide Logical, Pieces, PlainLine, Keeps, ResultsOk, LineKept, BodyOf, LineOf, Continues, Starts;
    var ps := Pieces(Logical(text));
    forall k | 0 <= k < |ps|
      ensures ResultsOk(BodyOf(ps[k]), f) && !Continues(ps[k]) && PieceKept(ps[k], f)
    {
      assert PlainPiece(ps[k]);
      PlainLineKept(BodyOf(ps[k]), f);
    }
  }

  // ----- A plain file stays plain ------------------------------------------

  lemma {:induction false} RewrittenTargets(words: seq<string>)
    requires WordsOk(words) && |words| > 0 && !BeginsWith(words[0], '#')
    ensures !BeginsWith(Joined(EscapedAll(words)), '#')
  {
    hide Joined, Escaped;
    HeadAndTail(words);
    EscapedHead(words[0]);
  }

  lemma {:induction false} EscapedHead(w: string)
    requires |w| > 0 && w[0] != '#'
    ensures |Escaped(w)| > 0 && Escaped(w)[0] != '#'
  {
  }

  lemma {:induction false} NoComment(value: string, f: string -> string, more: string)
    requires WordsOk(Images(Words(value), f)) && |more| > 0 && more[0] == ':'
    requires forall i :: 0 <= i < |Words(value)| ==> NameOk(Images(Words(value), f)[i])
    ensures !IsComment(RewriteWords(value, f) + more)
  {
    hide Words, Joined, Escaped, WordsOk;
    var images := Images(Words(value), f);
    RewriteWordsIs(value, f);
    hide RewriteWords;
    if |images| > 0 {
      assert NameOk(images[0]);
      RewrittenTargets(images);
    } else {
      NoWordsJoined(images);
    }
  }

  /** The words of a rewritten line are the rewritten words. */
  ghost predicate WordsRewritten(body: string, f: string -> string) {
    var r := RewriteBody(body, f);
    && !IsComment(r)
    && Words(TargetsOf(r)) == Images(Words(TargetsOf(body)), f)
    && Words(DependenciesOf(r)) == Images(Words(DependenciesOf(body)), f)
  }

  lemma {:induction false} RewrittenDependencies(targets: string, dependencies: string, f: string -> string)
    requires WordsOk(Images(Words(targets), f)) && AllTargets(Images(Words(targets), f))
    requires WordsOk(Images(Words(dependencies), f))
    requires forall i :: 0 <= i < |Words(targets)| ==> NameOk(Images(Words(targets), f)[i])
    ensures var r := RewriteWords(targets, f) + [':', ' '] + RewriteWords(dependencies, f);
      !IsComment(r) && TargetsOf(r) == RewriteWords(targets, f) && DependenciesOf(r) == RewriteWords(dependencies, f)
  {
    hide Words, RewriteWords, Separator, WordsOk, AllTargets, NameOk, Joined, EscapedAll, IsComment;
    var t, d := RewriteWords(targets, f), RewriteWords(dependencies, f);
    var more := [':', ' '] + d;
    RewriteWordsIs(targets, f);
    NoComment(targets, f, more);
    JoinedTargets(Images(Words(targets), f));
    SeparatorAfter(t, more);
    SeparatorFirst(d);
    Seqs.Assoc(t, [':', ' '], d);
    assert (t + more)[..|t|] == t && (t + more)[|t| + 2..] == d;
  }

  lemma {:induction false} RewrittenTargetsAlone(targets: string, f: string -> string)
    requires WordsOk(Images(Words(targets), f)) && AllTargets(Images(Words(targets), f))
    requires forall i :: 0 <= i < |Words(targets)| ==> NameOk(Images(Words(targets), f)[i])
    ensures var r := RewriteWords(targets, f) + [':'];
      !IsComment(r) && TargetsOf(r) == RewriteWords(targets, f) && DependenciesOf(r) == []
  {
    hide Words, RewriteWords, Separator, WordsOk, AllTargets, NameOk, Joined, EscapedAll, IsComment;
    var t := RewriteWords(targets, f);
    RewriteWordsIs(targets, f);
    NoComment(targets, f, [':']);
    JoinedTargets(Images(Words(targets), f));
    SeparatorAfter(t, [':']);
    SeparatorNone();
    assert (t + [':'])[..|t|] == t;
  }

  lemma {:induction false} RewrittenWords(body: string, f: string -> string)
    requires ResultsOk(body, f) && !IsComment(body)
    requires forall i :: 0 <= i < |Words(TargetsOf(body))| ==> NameOk(Images(Words(TargetsOf(body)), f)[i])
    ensures WordsRewritten(body, f)
  {
    hide Words, RewriteWords, Separator, WordsOk, AllTargets, NameOk, IsComment;
    var i := Separator(body);
    NoWords();
    NoImages(f);
    RewriteWordsIs(TargetsOf(body), f);
    RewriteWordsIs(DependenciesOf(body), f);
    CasesOf(body, f);
    if i < |body| {
      RewrittenDependencies(TargetsOf(body), DependenciesOf(body), f);
    } else if EndsWith(body, ':') {
      RewrittenTargetsAlone(TargetsOf(body), f);
    }
  }

  /** The branches of the rewriting, in terms of a line's two parts. */
  lemma {:induction false} CasesOf(body: string, f: string -> string)
    requires !IsComment(body)
    ensures RewriteBody(body, f) ==
      if Separator(body) < |body| then RewriteWords(TargetsOf(body), f) + [':', ' '] + RewriteWords(DependenciesOf(body), f)
      else if EndsWith(body, ':') then RewriteWords(TargetsOf(body), f) + [':'] else body
  {
    hide RewriteWords, Separator;
  }

  lemma {:induction false} PlainLineStays(body: string, f: string -> string)
    requires PlainLine(body) && Keeps(f)
    ensures PlainLine(RewriteBody(body, f))
  {
    hide Words, TargetsOf, DependenciesOf, WordOk, NameOk, Keeps, LineFiles, Starts;
    PlainWordsKept(Words(TargetsOf(body)), f);
    PlainWordsKept(Words(DependenciesOf(body)), f);
    if IsComment(body) {
      assert RewriteBody(body, f) == body;
    } else {
      PlainLineKept(body, f);
      RewrittenWords(body, f);
    }
  }

  lemma {:induction false} PlainPieceStays(p: string, f: string -> string)
    requires IsPiece(p) && PlainPiece(p) && Keeps(f)
    ensures PlainPiece(RewritePiece(p, f))
  {
    hide PlainLine, Keeps, RewriteBody, LineOf, EndingOf, BodyOf, ResultsOk, LineKept, IsPiece, NoJoin, Separator, Starts;
    var body, r := BodyOf(p), RewritePiece(p, f);
    PlainLineKept(body, f);
    PlainLineStays(body, f);
    PieceParts(p);
    BodyReads(LineOf(p));
    RewrittenBody(body, f);
    RewrittenParts(RewriteBody(body, f), EndingOf(p));
  }

  lemma {:induction false} RewrittenParts(b: string, ending: string)
    requires IsBody(b) && IsEnding(ending)
    ensures BodyOf(b + ending) == b && LineOf(b + ending) == b && EndingOf(b + ending) == ending
  {
    var r := b + ending;
    EndedLine(b, ending);
    if |ending| == 0 {
      assert r == b;
    } else if |ending| == 1 {
      assert r[..|r| - 1] == b;
    } else {
      assert r[..|r| - 1] == b + ['\r'] && (b + ['\r'])[..|b|] == b;
      assert BodyOf(r) == BodyOf(b + ['\r']) == BodyOf(b);
    }
  }

  lemma {:induction false} PlainTextStays(text: string, f: string -> string)
    requires PlainText(text) && Keeps(f)
    ensures PlainText(Rewrite(text, f))
  {
    hide Logical, Pieces, Keeps, PlainPiece, ResultsOk, Continues, RewritePiece, Concat, Readable, IsPiece, ReadPieces;
    var ps := Pieces(Logical(text));
    PiecesArePieces(Logical(text));
    PlainTextKept(text, f);
    RewrittenReadable(ps, f);
    ConcatReads(RewrittenPieces(ps, f));
    forall k | 0 <= k < |ps|
      ensures PlainPiece(RewritePiece(ps[k], f))
    {
      PlainPieceStays(ps[k], f);
    }
  }

  // ----- Replacing keeps words usable --------------------------------------

  lemma {:induction false} ReplacedNothing(text: string, from: string, to: string)
    requires |from| > 0 && |to| > 0
    ensures Replaced(text, from, to) == [] <==> text == []
  {
  }

  lemma {:induction false} ReplacedEnds(text: string, from: string, to: string, c: char)
    requires |from| > 0 && |to| > 0 && !EndsWith(text, c) && !EndsWith(to, c)
    ensures !EndsWith(Replaced(text, from, to), c)
    decreases |text|
  {
    if |text| > 0 {
      var rest := if Starts(text, from) then text[|from|..] else text[1..];
      ReplacedNothing(rest, from, to);
      ReplacedEnds(rest, from, to, c);
    }
  }

  lemma {:induction false} ReplacedOneLine(text: string, from: string, to: string)
    requires |from| > 0 && OneLine(text) && OneLine(to)
    ensures OneLine(Replaced(text, from, to))
    decreases |text|
  {
    if |text| > 0 {
      ReplacedOneLine(if Starts(text, from) then text[|from|..] else text[1..], from, to);
    }
  }

  lemma {:induction false} ReplacedKeepsWords(text: string, from: string, to: string)
    requires |from| > 0 && WordOk(text) && NameOk(to)
    ensures WordOk(Replaced(text, from, to))
    ensures NameOk(text) ==> NameOk(Replaced(text, from, to))
  {
    ReplacedNothing(text, from, to);
    ReplacedEnds(text, from, to, '\\');
    ReplacedOneLine(text, from, to);
    if NameOk(text) {
      ReplacedEnds(text, from, to, ':');
    }
  }

  lemma {:induction false} RulesKeepWords(text: string, rules: seq<Rule>)
    requires WordOk(text) && forall i :: 0 <= i < |rules| ==> NameOk(rules[i].to)
    ensures WordOk(ReplacedAll(text, rules))
    ensures NameOk(text) ==> NameOk(ReplacedAll(text, rules))
  {
    hide WordOk, NameOk;
    if |rules| > 0 {
      RulesKeepWords(text, rules[..|rules| - 1]);
      var before, last := ReplacedAll(text, rules[..|rules| - 1]), rules[|rules| - 1];
      if |last.from| > 0 {
        ReplacedKeepsWords(before, last.from, last.to);
      }
    }
  }

  // ----- The rewritings the program passes ---------------------------------

  function Normalizing(bases: seq<N.Base>): string -> string {
    path => N.Normalize(bases, path)
  }

  function Localizing(bases: seq<N.Base>): string -> string {
    path => N.Localize(bases, path)
  }

  ghost predicate NamesOk(bases: seq<N.Base>) {
    forall i :: 0 <= i < |bases| ==> NameOk(bases[i].token) && NameOk(bases[i].root)
  }

  lemma {:induction false} NormalizingKeeps(bases: seq<N.Base>)
    requires NamesOk(bases)
    ensures Keeps(Normalizing(bases))
  {
    hide WordOk, NameOk;
    forall w | WordOk(w)
      ensures WordOk(Normalizing(bases)(w)) && (NameOk(w) ==> NameOk(Normalizing(bases)(w)))
    {
      RulesKeepWords(w, N.Normalizations(bases));
    }
    NamesAreWords();
  }

  lemma {:induction false} NamesAreWords()
    ensures forall w :: NameOk(w) ==> WordOk(w)
  {
  }

  lemma {:induction false} LocalizingKeeps(bases: seq<N.Base>)
    requires NamesOk(bases)
    ensures Keeps(Localizing(bases))
  {
    hide WordOk, NameOk, N.Localizations;
    var rules := N.Localizations(bases);
    N.LocalizationsAreSpellings(bases);
    forall i | 0 <= i < |rules|
      ensures NameOk(rules[i].to)
    {
      var j :| 0 <= j < |bases| && bases[j] == N.Base(rules[i].from, rules[i].to);
    }
    forall w | WordOk(w)
      ensures WordOk(Localizing(bases)(w)) && (NameOk(w) ==> NameOk(Localizing(bases)(w)))
    {
      RulesKeepWords(w, rules);
    }
    NamesAreWords();
  }

  /** The portable dependency file names the portable paths of the files that
      the original names, and the same environment dependencies. */
  lemma {:induction false} PortableDepInfoReads(bases: seq<N.Base>, text: string)
    requires NamesOk(bases) && PlainText(text)
    ensures Parse(Rewrite(text, Normalizing(bases)))
      == Dependencies(ImageOf(Parse(text).files, Normalizing(bases)), Parse(text).env)
  {
    hide PlainText, Keeps, Parse, Rewrite;
    NormalizingKeeps(bases);
    PlainTextKept(text, Normalizing(bases));
    ParsingCommutesWithRewriting(text, Normalizing(bases));
  }

  lemma {:induction false} LocalDepInfoReads(bases: seq<N.Base>, text: string)
    requires NamesOk(bases) && PlainText(text)
    ensures Parse(Rewrite(text, Localizing(bases)))
      == Dependencies(ImageOf(Parse(text).files, Localizing(bases)), Parse(text).env)
  {
    hide PlainText, Keeps, Parse, Rewrite;
    LocalizingKeeps(bases);
    PlainTextKept(text, Localizing(bases));
    ParsingCommutesWithRewriting(text, Localizing(bases));
  }

  ghost function Respelling(bases: seq<N.Base>): string -> string {
    path => N.Respelled(bases, path)
  }

  /** A dependency file stored in portable form and restored names the files it
      named, each in the spelling chosen for its directory. */
  lemma {:induction false} DepInfoComesBack(bases: seq<N.Base>, text: string)
    requires NamesOk(bases) && N.BasesOk(bases) && PlainText(text)
    requires forall path :: path in Parse(text).files ==> !N.OccursSome(bases, path)
    ensures Parse(Rewrite(Rewrite(text, Normalizing(bases)), Localizing(bases)))
      == Dependencies(ImageOf(Parse(text).files, Respelling(bases)), Parse(text).env)
  {
    hide PlainText, Keeps, Parse, Rewrite, N.Normalize, N.Localize, N.Respelled, N.BasesOk, N.OccursSome;
    NormalizingKeeps(bases);
    PlainTextStays(text, Normalizing(bases));
    PortableDepInfoReads(bases, text);
    LocalDepInfoReads(bases, Rewrite(text, Normalizing(bases)));
    var files := Parse(text).files;
    forall path | path in files
      ensures Localizing(bases)(Normalizing(bases)(path)) == Respelling(bases)(path)
    {
      N.RoundTripExactly(bases, path);
    }
    ImageOfImage(files, Normalizing(bases), Localizing(bases), Respelling(bases));
  }

  lemma {:induction false} ImageOfImage(words: set<string>, f: string -> string, g: string -> string, h: string -> string)
    requires forall w :: w in words ==> g(f(w)) == h(w)
    ensures ImageOf(ImageOf(words, f), g) == ImageOf(words, h)
  {
    forall w | w in words
      ensures h(w) in ImageOf(ImageOf(words, f), g)
    {
      assert f(w) in ImageOf(words, f);
    }
  }
}
