/**
 Paths made portable: every base directory in a text is replaced by its token,
 deepest directory first, and tokens are replaced by directories again when the
 text is used elsewhere.
 */
module Normalizer {
  import opened Results
  import opened Replace

  datatype Base = Base(token: string, root: string)

  // ----- The bases of a normalizer -----------------------------------------

  function TrimmedSlashes(path: string): string {
    if |path| > 0 && path[|path| - 1] == '/' then TrimmedSlashes(path[..|path| - 1]) else path
  }

  predicate HasRoot(bases: seq<Base>, root: string) {
    exists i :: 0 <= i < |bases| && bases[i].root == root
  }

  /** After the bases that are at least as long: a stable sort, longest first. */
  function ByLength(bases: seq<Base>, b: Base): seq<Base> {
    if |bases| == 0 || |b.root| <= |bases[|bases| - 1].root| then bases + [b]
    else ByLength(bases[..|bases| - 1], b) + [bases[|bases| - 1]]
  }

  /** Empty directories and directories named before are passed over. */
  function Rendered(given: seq<Base>): seq<Base> {
    if |given| == 0 then [] else
      var before := Rendered(given[..|given| - 1]);
      var last := given[|given| - 1];
      var root := TrimmedSlashes(last.root);
      if |root| > 0 && !HasRoot(before, root) then before + [Base(last.token, root)] else before
  }

  function Sorted(bases: seq<Base>): seq<Base> {
    if |bases| == 0 then [] else ByLength(Sorted(bases[..|bases| - 1]), bases[|bases| - 1])
  }

  function New(given: seq<Base>): seq<Base> {
    Sorted(Rendered(given))
  }

  function Normalizations(bases: seq<Base>): seq<Rule> {
    seq(|bases|, i requires 0 <= i < |bases| => Rule(bases[i].root, bases[i].token))
  }

  function Normalize(bases: seq<Base>, text: string): string {
    ReplacedAll(text, Normalizations(bases))
  }

  const VERBATIM := "\\\\?\\"

  predicate HasChar(text: string, c: char) {
    exists i :: 0 <= i < |text| && text[i] == c
  }

  /** A verbatim Windows spelling gives way to an ordinary one. */
  predicate Prefers(path: string, chosen: string) {
    Starts(chosen, VERBATIM) && !Starts(path, VERBATIM) && !HasChar(path, '/')
  }

  function WithChoice(chosen: seq<Rule>, b: Base): seq<Rule> {
    if |chosen| == 0 then [Rule(b.token, b.root)]
    else if chosen[0].from == b.token then
      [Rule(b.token, if Prefers(b.root, chosen[0].to) then b.root else chosen[0].to)] + chosen[1..]
    else [chosen[0]] + WithChoice(chosen[1..], b)
  }

  /** The one directory each token stands for. */
  function Localizations(bases: seq<Base>): seq<Rule> {
    if |bases| == 0 then [] else WithChoice(Localizations(bases[..|bases| - 1]), bases[|bases| - 1])
  }

  function Localize(bases: seq<Base>, text: string): string {
    ReplacedAll(text, Localizations(bases))
  }

  method NormalizeBytes(bases: seq<Base>, bytes: string) returns (portable: string)
    ensures portable == Normalize(bases, bytes)
  {
    portable := ReplaceBytes(bytes, Normalizations(bases));
  }

  method LocalizeBytes(bases: seq<Base>, bytes: string) returns (local: string)
    ensures local == Localize(bases, bytes)
  {
    local := ReplaceBytes(bytes, Localizations(bases));
  }

  // ----- Usable bases ------------------------------------------------------

  /** A root begins with a slash and has no dollar sign. */
  predicate RootOk(root: string) {
    |root| > 0 && root[0] == '/' && !HasChar(root, '$')
  }

  /** A token is a dollar sign and then neither dollar signs nor slashes. */
  predicate TokenOk(token: string) {
    |token| > 0 && token[0] == '$' && forall i :: 1 <= i < |token| ==> token[i] != '$' && token[i] != '/'
  }

  /** Two bases may name one directory in two spellings, under one token; no
      other token is a prefix of a token. */
  ghost predicate BasesOk(bases: seq<Base>) {
    && (forall i :: 0 <= i < |bases| ==> RootOk(bases[i].root) && TokenOk(bases[i].token))
    && (forall i, j :: 0 <= i < |bases| && 0 <= j < |bases| && bases[i].token != bases[j].token ==>
          !Starts(bases[i].token, bases[j].token))
  }

  // ----- The spelling of each token ----------------------------------------

  ghost predicate DistinctTokens(rules: seq<Rule>) {
    forall i, j :: 0 <= i < j < |rules| ==> rules[i].from != rules[j].from
  }

  predicate HasRule(rules: seq<Rule>, token: string) {
    exists i :: 0 <= i < |rules| && rules[i].from == token
  }

  lemma {:induction false} WithChoiceHas(chosen: seq<Rule>, b: Base)
    ensures HasRule(WithChoice(chosen, b), b.token)
    ensures forall token :: HasRule(chosen, token) ==> HasRule(WithChoice(chosen, b), token)
    ensures forall token :: HasRule(WithChoice(chosen, b), token) ==> token == b.token || HasRule(chosen, token)
    ensures forall i :: 0 <= i < |WithChoice(chosen, b)| ==>
      WithChoice(chosen, b)[i] == Rule(b.token, b.root) || WithChoice(chosen, b)[i] in chosen
  {
    var r := WithChoice(chosen, b);
    if |chosen| == 0 {
      assert r[0] == Rule(b.token, b.root);
    } else if chosen[0].from == b.token {
      assert r[0].from == b.token && r[1..] == chosen[1..];
      assert chosen[0] == Rule(b.token, chosen[0].to);
      forall token | HasRule(chosen, token)
        ensures HasRule(r, token)
      {
        var i :| 0 <= i < |chosen| && chosen[i].from == token;
        assert r[i].from == token;
      }
      forall token | HasRule(r, token)
        ensures token == b.token || HasRule(chosen, token)
      {
        var i :| 0 <= i < |r| && r[i].from == token;
        assert chosen[i].from == token;
      }
    } else {
      var rest := WithChoice(chosen[1..], b);
      WithChoiceHas(chosen[1..], b);
      assert r == [chosen[0]] + rest;
      RuleAhead(chosen[0], rest);
      RuleAhead(chosen[0], chosen[1..]);
      assert chosen == [chosen[0]] + chosen[1..];
    }
  }

  lemma {:induction false} RuleAhead(r: Rule, rules: seq<Rule>)
    ensures forall token :: HasRule([r] + rules, token) <==> r.from == token || HasRule(rules, token)
  {
    var all := [r] + rules;
    assert all[0] == r;
    forall token | HasRule(rules, token)
      ensures HasRule(all, token)
    {
      var i :| 0 <= i < |rules| && rules[i].from == token;
      assert all[i + 1].from == token;
    }
    forall token | HasRule(all, token)
      ensures r.from == token || HasRule(rules, token)
    {
      var i :| 0 <= i < |all| && all[i].from == token;
      if i > 0 {
        assert rules[i - 1].from == token;
      }
    }
  }

  lemma {:induction false} WithChoiceDistinct(chosen: seq<Rule>, b: Base)
    requires DistinctTokens(chosen)
    ensures DistinctTokens(WithChoice(chosen, b))
  {
    if |chosen| > 0 && chosen[0].from != b.token {
      var rest := WithChoice(chosen[1..], b);
      WithChoiceDistinct(chosen[1..], b);
      WithChoiceHas(chosen[1..], b);
      forall i | 0 <= i < |rest|
        ensures rest[i].from != chosen[0].from
      {
        assert HasRule(rest, rest[i].from);
        if rest[i].from != b.token {
          var j :| 0 <= j < |chosen[1..]| && chosen[1..][j].from == rest[i].from;
          assert chosen[j + 1].from == rest[i].from;
        }
      }
    }
  }

  /** Each token localizes once, and to one of its own directories. */
  lemma {:induction false} LocalizationsAreSpellings(bases: seq<Base>)
    ensures DistinctTokens(Localizations(bases))
    ensures forall i :: 0 <= i < |Localizations(bases)| ==>
      Base(Localizations(bases)[i].from, Localizations(bases)[i].to) in bases
    ensures forall i :: 0 <= i < |bases| ==> HasRule(Localizations(bases), bases[i].token)
  {
    if |bases| > 0 {
      var front, last := bases[..|bases| - 1], bases[|bases| - 1];
      LocalizationsAreSpellings(front);
      var before, all := Localizations(front), Localizations(bases);
      WithChoiceDistinct(before, last);
      WithChoiceHas(before, last);
      assert bases == front + [last];
      forall i | 0 <= i < |all|
        ensures Base(all[i].from, all[i].to) in bases
      {
        if all[i] in before {
          var j :| 0 <= j < |before| && before[j] == all[i];
        }
      }
    }
  }

  /** The spellings of a token, in order. */
  function Spellings(bases: seq<Base>, token: string): seq<string> {
    if |bases| == 0 then [] else
      var last := bases[|bases| - 1];
      Spellings(bases[..|bases| - 1], token) + if last.token == token then [last.root] else []
  }

  ghost predicate NoneBetter(spellings: seq<string>, n: nat)
    requires n <= |spellings|
  {
    forall i :: 0 <= i < n ==> !Prefers(spellings[i], spellings[0])
  }

  /** The first spelling, unless it is a verbatim Windows one and a later one is
      ordinary; then the first such. */
  ghost predicate IsChoice(spellings: seq<string>, chosen: string) {
    |spellings| > 0 && (
      || (chosen == spellings[0] && NoneBetter(spellings, |spellings|))
      || exists k :: 0 <= k < |spellings| && spellings[k] == chosen && Prefers(chosen, spellings[0]) && NoneBetter(spellings, k))
  }

  /** What a token localizes to, or the token itself. */
  function LocalName(rules: seq<Rule>, token: string): string {
    if |rules| == 0 then token else if rules[0].from == token then rules[0].to else LocalName(rules[1..], token)
  }

  lemma {:induction false} WithChoiceNames(chosen: seq<Rule>, b: Base, token: string)
    ensures LocalName(WithChoice(chosen, b), token) ==
      if token != b.token then LocalName(chosen, token)
      else if HasRule(chosen, token) && !Prefers(b.root, LocalName(chosen, token)) then LocalName(chosen, token)
      else b.root
  {
    if |chosen| > 0 {
      assert chosen == [chosen[0]] + chosen[1..];
      RuleAhead(chosen[0], chosen[1..]);
      if chosen[0].from != b.token {
        WithChoiceNames(chosen[1..], b, token);
        assert WithChoice(chosen, b)[1..] == WithChoice(chosen[1..], b);
      } else {
        assert WithChoice(chosen, b)[1..] == chosen[1..];
      }
    }
  }

  lemma {:induction false} NoSpellingNoRule(bases: seq<Base>, token: string)
    ensures HasRule(Localizations(bases), token) <==> |Spellings(bases, token)| > 0
  {
    if |bases| > 0 {
      NoSpellingNoRule(bases[..|bases| - 1], token);
      WithChoiceHas(Localizations(bases[..|bases| - 1]), bases[|bases| - 1]);
    }
  }

  /** A token localizes to the choice among its spellings. */
  lemma {:induction false} LocalizesToTheChoice(bases: seq<Base>, token: string)
    requires |Spellings(bases, token)| > 0
    ensures IsChoice(Spellings(bases, token), LocalName(Localizations(bases), token))
  {
    hide Prefers;
    var front, last := bases[..|bases| - 1], bases[|bases| - 1];
    var before, name := Spellings(front, token), LocalName(Localizations(front), token);
    NoSpellingNoRule(front, token);
    WithChoiceNames(Localizations(front), last, token);
    if last.token != token {
      assert before + [] == before;
      LocalizesToTheChoice(front, token);
    } else if |before| == 0 {
      NotBetter(last.root);
      assert Spellings(bases, token) == [last.root];
    } else {
      LocalizesToTheChoice(front, token);
      OneMoreSpelling(before, last.root, name);
    }
  }

  lemma {:induction false} NotBetter(root: string)
    ensures !Prefers(root, root)
  {
  }

  lemma {:induction false} OneMoreSpelling(spellings: seq<string>, root: string, chosen: string)
    requires IsChoice(spellings, chosen)
    ensures IsChoice(spellings + [root], if Prefers(root, chosen) then root else chosen)
  {
    var all := spellings + [root];
    assert all[|spellings|] == root;
    if chosen == spellings[0] && NoneBetter(spellings, |spellings|) {
      assert NoneBetter(all, |spellings|);
    } else {
      var k :| 0 <= k < |spellings| && spellings[k] == chosen && Prefers(chosen, spellings[0]) && NoneBetter(spellings, k);
      assert all[k] == chosen && NoneBetter(all, k);
      assert !Prefers(root, chosen);
    }
  }

  // ----- Texts as characters and bases -------------------------------------

  datatype Piece = Lit(c: char) | Tok(i: nat)

  ghost predicate PiecesOk(n: nat, ps: seq<Piece>) {
    forall k :: 0 <= k < |ps| && ps[k].Tok? ==> ps[k].i < n
  }

  function ShowOne(p: Piece, names: seq<string>): string
    requires p.Tok? ==> p.i < |names|
  {
    if p.Lit? then [p.c] else names[p.i]
  }

  /** The text, with each base under the name it has in `names`. */
  function Show(ps: seq<Piece>, names: seq<string>): string
    requires PiecesOk(|names|, ps)
  {
    if |ps| == 0 then [] else ShowOne(ps[0], names) + Show(ps[1..], names)
  }

  function TokensOf(bases: seq<Base>): seq<string> {
    seq(|bases|, i requires 0 <= i < |bases| => bases[i].token)
  }

  function RootsOf(bases: seq<Base>): seq<string> {
    seq(|bases|, i requires 0 <= i < |bases| => bases[i].root)
  }

  /** With the rules so far applied to the tokens. */
  function NamesAfter(bases: seq<Base>, rules: seq<Rule>): seq<string> {
    seq(|bases|, i requires 0 <= i < |bases| => LocalName(rules, bases[i].token))
  }

  /** Every directory in the spelling its token localizes to. */
  function ChosenOf(bases: seq<Base>): seq<string> {
    NamesAfter(bases, Localizations(bases))
  }

  /** Each base is shown by its token or as a directory. */
  ghost predicate NamesOk(bases: seq<Base>, names: seq<string>) {
    |names| == |bases| && forall i :: 0 <= i < |bases| ==> names[i] == bases[i].token || RootOk(names[i])
  }

  /** Each base is shown as a directory. */
  ghost predicate AllRoots(names: seq<string>) {
    forall i :: 0 <= i < |names| ==> RootOk(names[i])
  }

  predicate Spells(ps: seq<Piece>, s: string) {
    |s| <= |ps| && forall i :: 0 <= i < |s| ==> ps[i] == Lit(s[i])
  }

  lemma {:induction false} SpelledShows(ps: seq<Piece>, s: string, names: seq<string>)
    requires PiecesOk(|names|, ps) && Spells(ps, s)
    ensures PiecesOk(|names|, ps[|s|..])
    ensures Show(ps, names) == s + Show(ps[|s|..], names)
  {
    if |s| == 0 {
      assert ps[0..] == ps && s + Show(ps, names) == Show(ps, names);
    } else {
      assert ps[1..][|s[1..]|..] == ps[|s|..];
      SpelledShows(ps[1..], s[1..], names);
      assert s == [s[0]] + s[1..];
    }
  }

  lemma {:induction false} NameHead(bases: seq<Base>, ps: seq<Piece>, names: seq<string>)
    requires BasesOk(bases) && NamesOk(bases, names) && PiecesOk(|names|, ps) && |ps| > 0
    ensures ps[0].Tok? ==> |Show(ps, names)| > 0 && (Show(ps, names)[0] == '$' || (names != TokensOf(bases) && Show(ps, names)[0] == '/'))
  {
    if ps[0].Tok? {
      assert RootOk(bases[ps[0].i].root) && TokenOk(bases[ps[0].i].token);
      assert Show(ps, names)[0] == ShowOne(ps[0], names)[0];
      assert names == TokensOf(bases) ==> names[ps[0].i] == bases[ps[0].i].token;
    }
  }

  /** A shown text that starts with a string whose later characters start no
      name spells it character by character. */
  lemma {:induction false} StartsMeansSpells(bases: seq<Base>, ps: seq<Piece>, s: string, names: seq<string>)
    requires BasesOk(bases) && NamesOk(bases, names) && PiecesOk(|names|, ps) && |s| > 0 && |ps| > 0 && ps[0].Lit?
    requires Starts(Show(ps, names), s)
    requires forall i :: 1 <= i < |s| ==> s[i] != '$' && (names != TokensOf(bases) ==> s[i] != '/')
    ensures Spells(ps, s)
  {
    var shown, rest := Show(ps, names), Show(ps[1..], names);
    assert shown == [ps[0].c] + rest;
    assert shown[..|s|][0] == s[0];
    if |s| > 1 {
      assert rest[..|s| - 1] == shown[..|s|][1..] == s[1..];
      assert rest[0] == s[1..][0] == s[1];
      assert |ps[1..]| > 0;
      NameHead(bases, ps[1..], names);
      StartsMeansSpells(bases, ps[1..], s[1..], names);
    }
  }

  // ----- Normalizing one base ----------------------------------------------

  /** The directory's spelled-out occurrences become the token. */
  function Folded(bases: seq<Base>, ps: seq<Piece>, i: nat): seq<Piece>
    requires i < |bases| && |bases[i].root| > 0
    decreases |ps|
  {
    if |ps| == 0 then []
    else if Spells(ps, bases[i].root) then [Tok(i)] + Folded(bases, ps[|bases[i].root|..], i)
    else [ps[0]] + Folded(bases, ps[1..], i)
  }

  lemma {:induction false} ShowHead(p: Piece, ps: seq<Piece>, names: seq<string>)
    requires (p.Tok? ==> p.i < |names|) && PiecesOk(|names|, ps)
    ensures PiecesOk(|names|, [p] + ps)
    ensures Show([p] + ps, names) == ShowOne(p, names) + Show(ps, names)
  {
    assert ([p] + ps)[1..] == ps;
  }

  lemma {:induction false} Uncons(n: nat, ps: seq<Piece>)
    requires PiecesOk(n, ps) && |ps| > 0
    ensures ps == [ps[0]] + ps[1..]
    ensures (ps[0].Tok? ==> ps[0].i < n) && PiecesOk(n, ps[1..])
  {
  }

  lemma {:induction false} FoldedOk(bases: seq<Base>, ps: seq<Piece>, i: nat)
    requires i < |bases| && |bases[i].root| > 0 && PiecesOk(|bases|, ps)
    ensures PiecesOk(|bases|, Folded(bases, ps, i))
    decreases |ps|
  {
    if |ps| > 0 {
      if Spells(ps, bases[i].root) {
        FoldedOk(bases, ps[|bases[i].root|..], i);
      } else {
        FoldedOk(bases, ps[1..], i);
      }
    }
  }

  /** Folding changes the portable text, and not what it stands for. */
  lemma {:induction false} FoldedMeansTheSame(bases: seq<Base>, ps: seq<Piece>, i: nat)
    requires i < |bases| && |bases[i].root| > 0 && PiecesOk(|bases|, ps) && PiecesOk(|bases|, Folded(bases, ps, i))
    ensures Show(Folded(bases, ps, i), RootsOf(bases)) == Show(ps, RootsOf(bases))
    decreases |ps|
  {
    hide Show, PiecesOk;
    if |ps| > 0 {
      var root, names := bases[i].root, RootsOf(bases);
      FoldedOk(bases, ps, i);
      if Spells(ps, root) {
        SpelledShows(ps, root, names);
        FoldedOk(bases, ps[|root|..], i);
        FoldedMeansTheSame(bases, ps[|root|..], i);
        ShowHead(Tok(i), Folded(bases, ps[|root|..], i), names);
      } else {
        Uncons(|bases|, ps);
        ShowHead(ps[0], ps[1..], names);
        FoldedOk(bases, ps[1..], i);
        FoldedMeansTheSame(bases, ps[1..], i);
        ShowHead(ps[0], Folded(bases, ps[1..], i), names);
      }
    } else {
      assert Folded(bases, ps, i) == ps;
    }
  }

  /** Replacing a directory in the portable text is folding its pieces: an
      occurrence never overlaps a token. */
  lemma {:induction false} NormalizingFolds(bases: seq<Base>, ps: seq<Piece>, i: nat)
    requires BasesOk(bases) && i < |bases| && PiecesOk(|bases|, ps) && PiecesOk(|bases|, Folded(bases, ps, i))
    ensures Replaced(Show(ps, TokensOf(bases)), bases[i].root, bases[i].token) == Show(Folded(bases, ps, i), TokensOf(bases))
    decreases |ps|
  {
    var root, token, names := bases[i].root, bases[i].token, TokensOf(bases);
    assert RootOk(root);
    if |ps| == 0 {
      return;
    }
    hide Show, PiecesOk, Replaced;
    FoldedOk(bases, ps, i);
    if Spells(ps, root) {
      SpelledShows(ps, root, names);
      ReplacesHead(root, Show(ps[|root|..], names), token);
      FoldedOk(bases, ps[|root|..], i);
      NormalizingFolds(bases, ps[|root|..], i);
      ShowHead(Tok(i), Folded(bases, ps[|root|..], i), names);
    } else {
      Uncons(|bases|, ps);
      ShowHead(ps[0], ps[1..], names);
      FoldedOk(bases, ps[1..], i);
      NormalizingFolds(bases, ps[1..], i);
      ShowHead(ps[0], Folded(bases, ps[1..], i), names);
      NormalizingSkips(bases, ps, i);
    }
  }

  lemma {:induction false} NormalizingSkips(bases: seq<Base>, ps: seq<Piece>, i: nat)
    requires BasesOk(bases) && i < |bases| && PiecesOk(|bases|, ps) && |ps| > 0 && !Spells(ps, bases[i].root)
    ensures var names := TokensOf(bases);
      var one, rest := ShowOne(ps[0], names), Show(ps[1..], names);
      Replaced(one + rest, bases[i].root, bases[i].token) == one + Replaced(rest, bases[i].root, bases[i].token)
  {
    var root, token, names := bases[i].root, bases[i].token, TokensOf(bases);
    var rest := Show(ps[1..], names);
    assert RootOk(root);
    hide Replaced;
    assert ps == [ps[0]] + ps[1..];
    if ps[0].Lit? {
      if Starts(Show(ps, names), root) {
        StartsMeansSpells(bases, ps, root, names);
      }
      CopiesHead(ps[0].c, rest, root, token);
    } else {
      assert TokenOk(bases[ps[0].i].token);
      CopiesBlock(bases[ps[0].i].token, rest, root, token);
    }
  }

  // ----- Normalizing every base --------------------------------------------

  function Characters(text: string): seq<Piece> {
    seq(|text|, i requires 0 <= i < |text| => Lit(text[i]))
  }

  lemma {:induction false} CharactersShow(text: string, names: seq<string>)
    ensures PiecesOk(|names|, Characters(text)) && Show(Characters(text), names) == text
  {
    assert Spells(Characters(text), text);
    SpelledShows(Characters(text), text, names);
    assert Characters(text)[|text|..] == [] && text + [] == text;
  }

  /** The text as characters and the directories found in it, one base after
      the other. */
  function Found(bases: seq<Base>, text: string, n: nat): (ps: seq<Piece>)
    requires n <= |bases|
  {
    if n == 0 then Characters(text)
    else if |bases[n - 1].root| == 0 then Found(bases, text, n - 1)
    else Folded(bases, Found(bases, text, n - 1), n - 1)
  }

  lemma {:induction false} FoundOk(bases: seq<Base>, text: string, n: nat)
    requires n <= |bases|
    ensures PiecesOk(|bases|, Found(bases, text, n))
    ensures Show(Found(bases, text, n), RootsOf(bases)) == text
  {
    hide Show, PiecesOk;
    if n == 0 {
      CharactersShow(text, RootsOf(bases));
    } else {
      var before := Found(bases, text, n - 1);
      FoundOk(bases, text, n - 1);
      if |bases[n - 1].root| > 0 {
        FoldedOk(bases, before, n - 1);
        FoldedMeansTheSame(bases, before, n - 1);
      }
    }
  }

  /** The normalized text is the original with the directories found in it
      under their tokens. */
  lemma {:induction false} NormalizedShows(bases: seq<Base>, text: string, n: nat)
    requires BasesOk(bases) && n <= |bases|
    ensures PiecesOk(|bases|, Found(bases, text, n))
    ensures ReplacedAll(text, Normalizations(bases)[..n]) == Show(Found(bases, text, n), TokensOf(bases))
  {
    hide Show, PiecesOk, Replaced;
    FoundOk(bases, text, n);
    if n == 0 {
      CharactersShow(text, TokensOf(bases));
    } else {
      NormalizedShows(bases, text, n - 1);
      var rules := Normalizations(bases)[..n];
      assert rules[..n - 1] == Normalizations(bases)[..n - 1];
      assert RootOk(bases[n - 1].root);
      NormalizingFolds(bases, Found(bases, text, n - 1), n - 1);
    }
  }

  // ----- Localizing --------------------------------------------------------

  /** A base whose token a text starts with, if any: the last of them. */
  function TokenAt(bases: seq<Base>, text: string, n: nat): (r: Option<nat>)
    requires n <= |bases|
    ensures r.Some? ==> r.value < n && Starts(text, bases[r.value].token)
    ensures r.None? ==> forall i :: 0 <= i < n ==> !Starts(text, bases[i].token)
  {
    if n == 0 then None
    else if Starts(text, bases[n - 1].token) then Some(n - 1)
    else TokenAt(bases, text, n - 1)
  }

  /** A text read as characters and tokens, left to right. */
  function Parsed(bases: seq<Base>, text: string): seq<Piece>
    decreases |text|
  {
    if |text| == 0 then [] else
      var t := TokenAt(bases, text, |bases|);
      if t.Some? && |bases[t.value].token| > 0 then [Tok(t.value)] + Parsed(bases, text[|bases[t.value].token|..])
      else [Lit(text[0])] + Parsed(bases, text[1..])
  }

  /** No token is spelled out character by character. */
  ghost predicate Unspelled(bases: seq<Base>, ps: seq<Piece>) {
    |ps| == 0 || ((forall j :: 0 <= j < |bases| ==> !Spells(ps, bases[j].token)) && Unspelled(bases, ps[1..]))
  }

  lemma {:induction false} ParsedShows(bases: seq<Base>, text: string)
    requires BasesOk(bases)
    ensures PiecesOk(|bases|, Parsed(bases, text)) && Show(Parsed(bases, text), TokensOf(bases)) == text
    decreases |text|
  {
    hide Show, PiecesOk;
    var names := TokensOf(bases);
    if |text| == 0 {
      CharactersShow([], names);
      assert Characters([]) == [];
    } else {
      var t := TokenAt(bases, text, |bases|);
      if t.Some? {
        var token := bases[t.value].token;
        assert TokenOk(token);
        ParsedShows(bases, text[|token|..]);
        ShowHead(Tok(t.value), Parsed(bases, text[|token|..]), names);
        assert text == token + text[|token|..];
      } else {
        ParsedShows(bases, text[1..]);
        ShowHead(Lit(text[0]), Parsed(bases, text[1..]), names);
        assert text == [text[0]] + text[1..];
      }
    }
  }

  lemma {:induction false} ParsedIsUnspelled(bases: seq<Base>, text: string)
    requires BasesOk(bases)
    ensures Unspelled(bases, Parsed(bases, text))
    decreases |text|
  {
    hide Show, PiecesOk;
    if |text| > 0 {
      var ps := Parsed(bases, text);
      ParsedShows(bases, text);
      forall j | 0 <= j < |bases|
        ensures !Spells(ps, bases[j].token)
      {
        assert TokenOk(bases[j].token);
        if Spells(ps, bases[j].token) {
          SpelledShows(ps, bases[j].token, TokensOf(bases));
          StartsWithHead(bases[j].token, Show(ps[|bases[j].token|..], TokensOf(bases)));
        }
      }
      var t := TokenAt(bases, text, |bases|);
      if t.Some? {
        assert TokenOk(bases[t.value].token);
        ParsedIsUnspelled(bases, text[|bases[t.value].token|..]);
        assert ps[1..] == Parsed(bases, text[|bases[t.value].token|..]);
      } else {
        ParsedIsUnspelled(bases, text[1..]);
        assert ps[1..] == Parsed(bases, text[1..]);
      }
    }
  }

  lemma {:induction false} StartsWithHead(head: string, rest: string)
    ensures Starts(head + rest, head)
  {
    assert (head + rest)[..|head|] == head;
  }

  /** Of a token and what follows it, only the token itself is a prefix. */
  lemma {:induction false} OnlyItself(bases: seq<Base>, i: nat, j: nat, rest: string)
    requires BasesOk(bases) && i < |bases| && j < |bases|
    ensures Starts(bases[i].token + rest, bases[j].token) <==> bases[i].token == bases[j].token
  {
    var a, b := bases[i].token, bases[j].token;
    if a == b {
      StartsWithHead(a, rest);
    } else {
      assert !Starts(a, b) && !Starts(b, a);
      if |b| <= |a| {
        assert (a + rest)[..|b|] == a[..|b|];
      } else if |b| <= |a + rest| {
        assert (a + rest)[..|b|][..|a|] == a;
      }
    }
  }

  /** One token shown as a directory wherever it is a piece. */
  function Renamed(bases: seq<Base>, names: seq<string>, rule: Rule): seq<string>
    requires |names| == |bases|
  {
    seq(|bases|, i requires 0 <= i < |bases| => if bases[i].token == rule.from then rule.to else names[i])
  }

  /** The rule localizes the token of some base, which no rule before it did. */
  ghost predicate MayRename(bases: seq<Base>, names: seq<string>, rule: Rule, j: nat) {
    && NamesOk(bases, names) && j < |bases| && bases[j].token == rule.from && TokenOk(rule.from) && RootOk(rule.to)
    && forall i :: 0 <= i < |bases| && bases[i].token == rule.from ==> names[i] == rule.from
  }

  lemma {:induction false} LocalizingCharacter(bases: seq<Base>, p: Piece, ps: seq<Piece>, names: seq<string>, rule: Rule, j: nat)
    requires BasesOk(bases) && MayRename(bases, names, rule, j)
    requires PiecesOk(|names|, ps) && p.Lit? && !Spells([p] + ps, rule.from)
    ensures var rest := Show(ps, names);
      Replaced([p.c] + rest, rule.from, rule.to) == [p.c] + Replaced(rest, rule.from, rule.to)
  {
    var rest := Show(ps, names);
    ShowHead(p, ps, names);
    hide Replaced, Show;
    assert ([p] + ps)[0] == p;
    if Starts([p.c] + rest, rule.from) {
      StartsMeansSpells(bases, [p] + ps, rule.from, names);
    }
    CopiesHead(p.c, rest, rule.from, rule.to);
  }

  lemma {:induction false} LocalizingOtherToken(bases: seq<Base>, i: nat, j: nat, rule: Rule, rest: string)
    requires BasesOk(bases) && i < |bases| && j < |bases| && bases[j].token == rule.from && TokenOk(rule.from)
    requires bases[i].token != rule.from
    ensures Replaced(bases[i].token + rest, rule.from, rule.to) == bases[i].token + Replaced(rest, rule.from, rule.to)
  {
    var token, root, other := rule.from, rule.to, bases[i].token;
    assert TokenOk(other);
    OnlyItself(bases, i, j, rest);
    hide Replaced, BasesOk, TokenOk;
    assert other == [other[0]] + other[1..] && other + rest == [other[0]] + (other[1..] + rest);
    CopiesHead(other[0], other[1..] + rest, token, root);
    CopiesBlock(other[1..], rest, token, root);
    assert [other[0]] + (other[1..] + Replaced(rest, token, root)) == other + Replaced(rest, token, root);
  }

  lemma {:induction false} LocalizingOne(bases: seq<Base>, p: Piece, ps: seq<Piece>, names: seq<string>, rule: Rule, j: nat)
    requires BasesOk(bases) && MayRename(bases, names, rule, j)
    requires (p.Tok? ==> p.i < |bases|) && PiecesOk(|names|, ps) && !Spells([p] + ps, rule.from)
    ensures var rest := Show(ps, names);
      Replaced(ShowOne(p, names) + rest, rule.from, rule.to)
        == ShowOne(p, Renamed(bases, names, rule)) + Replaced(rest, rule.from, rule.to)
  {
    var rest := Show(ps, names);
    hide Replaced, Show, Spells;
    if p.Lit? {
      LocalizingCharacter(bases, p, ps, names, rule, j);
    } else if bases[p.i].token == rule.from {
      ReplacesHead(rule.from, rest, rule.to);
    } else if names[p.i] == bases[p.i].token {
      LocalizingOtherToken(bases, p.i, j, rule, rest);
    } else {
      assert RootOk(names[p.i]);
      CopiesBlock(names[p.i], rest, rule.from, rule.to);
    }
  }

  /** Localizing one token touches that token's pieces and nothing else. */
  lemma {:induction false} LocalizingStep(bases: seq<Base>, ps: seq<Piece>, names: seq<string>, rule: Rule, j: nat)
    requires BasesOk(bases) && MayRename(bases, names, rule, j)
    requires PiecesOk(|names|, ps) && Unspelled(bases, ps)
    ensures Replaced(Show(ps, names), rule.from, rule.to) == Show(ps, Renamed(bases, names, rule))
    decreases |ps|
  {
    if |ps| > 0 {
      assert !Spells(ps, bases[j].token);
      hide Show, PiecesOk, Replaced, Spells, BasesOk, NamesOk, TokenOk, RootOk;
      Uncons(|names|, ps);
      LocalizingOne(bases, ps[0], ps[1..], names, rule, j);
      ShowHead(ps[0], ps[1..], names);
      ShowHead(ps[0], ps[1..], Renamed(bases, names, rule));
      LocalizingStep(bases, ps[1..], names, rule, j);
    }
  }

  lemma {:induction false} LocalNameOfMore(rules: seq<Rule>, k: nat, token: string)
    requires k < |rules| && DistinctTokens(rules)
    ensures LocalName(rules[..k + 1], token) == if rules[k].from == token then rules[k].to else LocalName(rules[..k], token)
    ensures rules[k].from == token ==> LocalName(rules[..k], token) == token
  {
    if k > 0 {
      LocalNameOfMore(rules[1..], k - 1, token);
      assert rules[..k + 1][1..] == rules[1..][..k] && rules[..k][1..] == rules[1..][..k - 1];
    }
  }

  lemma {:induction false} NamesAfterOk(bases: seq<Base>, rules: seq<Rule>)
    requires BasesOk(bases) && forall i :: 0 <= i < |rules| ==> Base(rules[i].from, rules[i].to) in bases
    ensures NamesOk(bases, NamesAfter(bases, rules))
    ensures (forall i :: 0 <= i < |bases| ==> HasRule(rules, bases[i].token)) ==> AllRoots(NamesAfter(bases, rules))
  {
    forall i | 0 <= i < |bases|
      ensures var name := LocalName(rules, bases[i].token);
        (name == bases[i].token && !HasRule(rules, bases[i].token)) || RootOk(name)
    {
      LocalNameIs(bases, rules, bases[i].token);
    }
  }

  lemma {:induction false} LocalNameIs(bases: seq<Base>, rules: seq<Rule>, token: string)
    requires BasesOk(bases) && forall i :: 0 <= i < |rules| ==> Base(rules[i].from, rules[i].to) in bases
    ensures (LocalName(rules, token) == token && !HasRule(rules, token)) || RootOk(LocalName(rules, token))
  {
    if |rules| > 0 {
      assert rules == [rules[0]] + rules[1..];
      RuleAhead(rules[0], rules[1..]);
      if rules[0].from == token {
        var j :| 0 <= j < |bases| && bases[j] == Base(rules[0].from, rules[0].to);
        assert RootOk(bases[j].root);
      } else {
        forall i | 0 <= i < |rules[1..]|
          ensures Base(rules[1..][i].from, rules[1..][i].to) in bases
        {
          assert rules[1..][i] == rules[i + 1];
        }
        LocalNameIs(bases, rules[1..], token);
      }
    }
  }

  lemma {:induction false} NamesAfterOneMore(bases: seq<Base>, rules: seq<Rule>, k: nat)
    requires BasesOk(bases) && k < |rules| && DistinctTokens(rules)
    requires forall i :: 0 <= i < |rules| ==> Base(rules[i].from, rules[i].to) in bases
    ensures NamesAfter(bases, rules[..k + 1]) == Renamed(bases, NamesAfter(bases, rules[..k]), rules[k])
    ensures exists j: nat :: MayRename(bases, NamesAfter(bases, rules[..k]), rules[k], j)
  {
    hide LocalName, DistinctTokens;
    var names := NamesAfter(bases, rules[..k]);
    NamesAfterOk(bases, rules[..k]);
    forall i | 0 <= i < |bases|
      ensures NamesAfter(bases, rules[..k + 1])[i] == Renamed(bases, names, rules[k])[i]
      ensures bases[i].token == rules[k].from ==> names[i] == rules[k].from
    {
      LocalNameOfMore(rules, k, bases[i].token);
    }
    var j :| 0 <= j < |bases| && bases[j] == Base(rules[k].from, rules[k].to);
    assert TokenOk(bases[j].token) && RootOk(bases[j].root);
    assert MayRename(bases, names, rules[k], j);
  }

  lemma {:induction false} LocalizingRun(bases: seq<Base>, ps: seq<Piece>, k: nat)
    requires BasesOk(bases) && k <= |Localizations(bases)| && PiecesOk(|bases|, ps) && Unspelled(bases, ps)
    ensures ReplacedAll(Show(ps, TokensOf(bases)), Localizations(bases)[..k])
      == Show(ps, NamesAfter(bases, Localizations(bases)[..k]))
  {
    hide Show, PiecesOk, Replaced, Unspelled, Localizations, BasesOk, NamesOk, RootOk;
    var rules := Localizations(bases);
    if k == 0 {
      assert NamesAfter(bases, rules[..0]) == TokensOf(bases);
    } else {
      LocalizingRun(bases, ps, k - 1);
      LocalizationsAreSpellings(bases);
      NamesAfterOneMore(bases, rules, k - 1);
      assert rules[..k][..k - 1] == rules[..k - 1];
      var names := NamesAfter(bases, rules[..k - 1]);
      var j: nat :| MayRename(bases, names, rules[k - 1], j);
      LocalizingStep(bases, ps, names, rules[k - 1], j);
    }
  }

  /** Replacing one token after the other is replacing all of them at once, by
      the spelling chosen for each. */
  lemma {:induction false} LocalizesAllAtOnce(bases: seq<Base>, text: string)
    requires BasesOk(bases)
    ensures PiecesOk(|bases|, Parsed(bases, text))
    ensures Localize(bases, text) == Show(Parsed(bases, text), ChosenOf(bases))
  {
    hide Show, PiecesOk, Localizations;
    ParsedShows(bases, text);
    ParsedIsUnspelled(bases, text);
    LocalizingRun(bases, Parsed(bases, text), |Localizations(bases)|);
    assert Localizations(bases)[..|Localizations(bases)|] == Localizations(bases);
  }

  // ----- There and back ----------------------------------------------------

  function Tokens(ps: seq<Piece>): nat {
    if |ps| == 0 then 0 else (if ps[0].Tok? then 1 else 0) + Tokens(ps[1..])
  }

  lemma {:induction false} SpelledHasNoTokens(ps: seq<Piece>, s: string)
    requires Spells(ps, s)
    ensures Tokens(ps) == Tokens(ps[|s|..])
  {
    if |s| == 0 {
      assert ps[0..] == ps;
    } else {
      SpelledHasNoTokens(ps[1..], s[1..]);
      assert ps[1..][|s[1..]|..] == ps[|s|..];
    }
  }

  /** The base that stands for the token of a base. */
  function Leader(bases: seq<Base>, i: nat): nat
    requires i < |bases|
  {
    var t := TokenAt(bases, bases[i].token, |bases|);
    if t.Some? then t.value else i
  }

  function LedOne(bases: seq<Base>, p: Piece): Piece
    requires p.Tok? ==> p.i < |bases|
  {
    if p.Lit? then p else Tok(Leader(bases, p.i))
  }

  /** Pieces that name bases by their tokens alone. */
  function Led(bases: seq<Base>, ps: seq<Piece>): seq<Piece>
    requires PiecesOk(|bases|, ps)
  {
    seq(|ps|, k requires 0 <= k < |ps| => LedOne(bases, ps[k]))
  }

  lemma {:induction false} LedUncons(bases: seq<Base>, ps: seq<Piece>)
    requires PiecesOk(|bases|, ps) && |ps| > 0
    ensures PiecesOk(|bases|, ps[1..]) && Led(bases, ps) == [LedOne(bases, ps[0])] + Led(bases, ps[1..])
  {
  }

  lemma {:induction false} LedTokens(bases: seq<Base>, ps: seq<Piece>)
    requires PiecesOk(|bases|, ps)
    ensures Tokens(Led(bases, ps)) == Tokens(ps)
  {
    if |ps| > 0 {
      LedUncons(bases, ps);
      LedTokens(bases, ps[1..]);
      assert Led(bases, ps)[1..] == Led(bases, ps[1..]);
    }
  }

  lemma {:induction false} SameTokenAt(bases: seq<Base>, a: string, b: string, n: nat)
    requires n <= |bases| && forall j :: 0 <= j < n ==> (Starts(a, bases[j].token) <==> Starts(b, bases[j].token))
    ensures TokenAt(bases, a, n) == TokenAt(bases, b, n)
  {
    if n > 0 {
      SameTokenAt(bases, a, b, n - 1);
    }
  }

  lemma {:induction false} TokenFound(bases: seq<Base>, i: nat, rest: string)
    requires BasesOk(bases) && i < |bases|
    ensures TokenAt(bases, bases[i].token + rest, |bases|) == Some(Leader(bases, i))
    ensures Leader(bases, i) < |bases| && bases[Leader(bases, i)].token == bases[i].token
  {
    var token := bases[i].token;
    assert token + [] == token;
    forall j | 0 <= j < |bases|
      ensures Starts(token + rest, bases[j].token) <==> Starts(token, bases[j].token)
      ensures Starts(token, bases[j].token) <==> token == bases[j].token
    {
      OnlyItself(bases, i, j, rest);
      OnlyItself(bases, i, j, []);
    }
    SameTokenAt(bases, token + rest, token, |bases|);
    assert Starts(token, bases[i].token);
  }

  /** Names that go by the token do not tell a base from its leader. */
  lemma {:induction false} LedShows(bases: seq<Base>, ps: seq<Piece>, rules: seq<Rule>)
    requires BasesOk(bases) && PiecesOk(|bases|, ps)
    ensures PiecesOk(|bases|, Led(bases, ps))
    ensures Show(Led(bases, ps), NamesAfter(bases, rules)) == Show(ps, NamesAfter(bases, rules))
  {
    if |ps| > 0 {
      LedUncons(bases, ps);
      LedShows(bases, ps[1..], rules);
      if ps[0].Tok? {
        TokenFound(bases, ps[0].i, []);
      }
      ShowHead(LedOne(bases, ps[0]), Led(bases, ps[1..]), NamesAfter(bases, rules));
    }
  }

  /** Reading a shown text again finds every token again, and more of them
      exactly when one was spelled out. */
  ghost predicate FoundAgain(bases: seq<Base>, ps: seq<Piece>)
    requires PiecesOk(|bases|, ps)
  {
    var again := Parsed(bases, Show(ps, TokensOf(bases)));
    if Unspelled(bases, ps) then again == Led(bases, ps) else Tokens(again) > Tokens(ps)
  }

  lemma {:induction false} ReadAgain(bases: seq<Base>, ps: seq<Piece>)
    requires BasesOk(bases) && PiecesOk(|bases|, ps)
    ensures FoundAgain(bases, ps)
    decreases |ps|
  {
    if |ps| > 0 {
      var names := TokensOf(bases);
      Uncons(|bases|, ps);
      ShowHead(ps[0], ps[1..], names);
      if ps[0].Tok? {
        ReadAgainToken(bases, ps);
      } else if j: nat :| j < |bases| && Spells(ps, bases[j].token) {
        assert TokenOk(bases[j].token);
        SpelledShows(ps, bases[j].token, names);
        StartsWithHead(bases[j].token, Show(ps[|bases[j].token|..], names));
        ReadAgainSpelled(bases, ps);
      } else {
        ReadAgainCharacter(bases, ps);
      }
    }
  }

  lemma {:induction false} ReadAgainToken(bases: seq<Base>, ps: seq<Piece>)
    requires BasesOk(bases) && PiecesOk(|bases|, ps) && |ps| > 0 && ps[0].Tok?
    ensures FoundAgain(bases, ps)
    decreases |ps|, 0
  {
    var names := TokensOf(bases);
    Uncons(|bases|, ps);
    var i, rest := ps[0].i, Show(ps[1..], names);
    ReadAgain(bases, ps[1..]);
    LedUncons(bases, ps);
    hide Show, Unspelled, Parsed, Led;
    ShowHead(ps[0], ps[1..], names);
    TokenFound(bases, i, rest);
    ParsedToken(bases, i, rest);
    UnspelledToken(bases, ps);
    assert ([Tok(Leader(bases, i))] + Parsed(bases, rest))[1..] == Parsed(bases, rest);
  }

  lemma {:induction false} ParsedToken(bases: seq<Base>, i: nat, rest: string)
    requires BasesOk(bases) && i < |bases|
    ensures Parsed(bases, bases[i].token + rest) == [Tok(Leader(bases, i))] + Parsed(bases, rest)
  {
    assert TokenOk(bases[i].token);
    TokenFound(bases, i, rest);
    var text := bases[i].token + rest;
    assert text[|bases[i].token|..] == rest;
  }

  lemma {:induction false} UnspelledToken(bases: seq<Base>, ps: seq<Piece>)
    requires BasesOk(bases) && |ps| > 0 && ps[0].Tok?
    ensures Unspelled(bases, ps) <==> Unspelled(bases, ps[1..])
  {
    forall j | 0 <= j < |bases|
      ensures !Spells(ps, bases[j].token)
    {
      assert TokenOk(bases[j].token);
    }
  }

  lemma {:induction false} SpelledIsNotUnspelled(bases: seq<Base>, ps: seq<Piece>, j: nat)
    requires |ps| > 0 && j < |bases| && Spells(ps, bases[j].token)
    ensures !Unspelled(bases, ps)
  {
  }

  lemma {:induction false} ReadAgainSpelled(bases: seq<Base>, ps: seq<Piece>)
    requires BasesOk(bases) && PiecesOk(|bases|, ps) && |ps| > 0 && ps[0].Lit?
    requires exists j :: 0 <= j < |bases| && Spells(ps, bases[j].token) && Starts(Show(ps, TokensOf(bases)), bases[j].token)
    ensures !Unspelled(bases, ps)
    ensures Tokens(Parsed(bases, Show(ps, TokensOf(bases)))) > Tokens(ps)
    decreases |ps|, 0
  {
    var names := TokensOf(bases);
    var text := Show(ps, names);
    var m := TokenAt(bases, text, |bases|).value;
    var token := bases[m].token;
    assert TokenOk(token);
    StartsMeansSpells(bases, ps, token, names);
    SpelledIsNotUnspelled(bases, ps, m);
    hide Show, Unspelled, Parsed, BasesOk, TokenOk, Spells, Starts;
    SpelledShows(ps, token, names);
    var rest := ps[|token|..];
    ReadAgain(bases, rest);
    LedTokens(bases, rest);
    SpelledHasNoTokens(ps, token);
    assert text == token + Show(rest, names);
    ParsedToken(bases, m, Show(rest, names));
    var again := Parsed(bases, Show(rest, names));
    assert ([Tok(Leader(bases, m))] + again)[1..] == again;
  }

  lemma {:induction false} ReadAgainCharacter(bases: seq<Base>, ps: seq<Piece>)
    requires BasesOk(bases) && PiecesOk(|bases|, ps) && |ps| > 0 && ps[0].Lit?
    requires forall j :: 0 <= j < |bases| ==> !Spells(ps, bases[j].token)
    ensures FoundAgain(bases, ps)
    decreases |ps|, 0
  {
    var names := TokensOf(bases);
    Uncons(|bases|, ps);
    var text, rest := Show(ps, names), Show(ps[1..], names);
    ReadAgain(bases, ps[1..]);
    LedUncons(bases, ps);
    ShowHead(ps[0], ps[1..], names);
    assert text == [ps[0].c] + rest;
    forall j | 0 <= j < |bases|
      ensures !Starts(text, bases[j].token)
    {
      assert TokenOk(bases[j].token);
      if Starts(text, bases[j].token) {
        StartsMeansSpells(bases, ps, bases[j].token, names);
      }
    }
    assert TokenAt(bases, text, |bases|) == None;
    assert text[1..] == rest;
    var again := Parsed(bases, rest);
    assert Parsed(bases, text) == [ps[0]] + again;
    assert ([ps[0]] + again)[1..] == again;
  }

  function Dollars(text: string): nat {
    if |text| == 0 then 0 else (if text[0] == '$' then 1 else 0) + Dollars(text[1..])
  }

  lemma {:induction false} DollarsConcat(a: string, b: string)
    ensures Dollars(a + b) == Dollars(a) + Dollars(b)
  {
    if |a| == 0 {
      assert a + b == b;
    } else {
      assert (a + b)[1..] == a[1..] + b;
      DollarsConcat(a[1..], b);
    }
  }

  lemma {:induction false} NoDollars(text: string)
    requires forall i :: 0 <= i < |text| ==> text[i] != '$'
    ensures Dollars(text) == 0
  {
    if |text| > 0 {
      NoDollars(text[1..]);
    }
  }

  /** The portable text has one more dollar sign for each token. */
  lemma {:induction false} DollarsShown(bases: seq<Base>, ps: seq<Piece>, names: seq<string>)
    requires BasesOk(bases) && PiecesOk(|bases|, ps) && |names| == |bases| && AllRoots(names)
    ensures Dollars(Show(ps, TokensOf(bases))) == Dollars(Show(ps, names)) + Tokens(ps)
  {
    if |ps| > 0 {
      Uncons(|bases|, ps);
      DollarsShown(bases, ps[1..], names);
      DollarsConcat(ShowOne(ps[0], TokensOf(bases)), Show(ps[1..], TokensOf(bases)));
      DollarsConcat(ShowOne(ps[0], names), Show(ps[1..], names));
      if ps[0].Tok? {
        assert RootOk(names[ps[0].i]) && TokenOk(bases[ps[0].i].token);
        NoDollars(names[ps[0].i]);
        NoDollars(bases[ps[0].i].token[1..]);
      }
    }
  }

  ghost predicate Occurs(text: string, part: string) {
    exists i :: 0 <= i <= |text| && FoundAt(text, part, i)
  }

  ghost predicate OccursSome(bases: seq<Base>, text: string) {
    exists j :: 0 <= j < |bases| && Occurs(text, bases[j].token)
  }

  lemma {:induction false} OccursLater(a: string, b: string, part: string)
    requires Occurs(b, part)
    ensures Occurs(a + b, part)
  {
    var i :| 0 <= i <= |b| && FoundAt(b, part, i);
    assert (a + b)[|a| + i..] == b[i..];
    assert FoundAt(a + b, part, |a| + i);
  }

  lemma {:induction false} OccursFirst(text: string, part: string)
    requires Starts(text, part)
    ensures Occurs(text, part)
  {
    assert text[0..] == text;
    assert FoundAt(text, part, 0);
  }

  /** A token occurs in the text exactly if it is spelled out. */
  lemma {:induction false} SpelledOccurs(bases: seq<Base>, ps: seq<Piece>, names: seq<string>)
    requires BasesOk(bases) && |names| == |bases| && PiecesOk(|bases|, ps) && !Unspelled(bases, ps)
    ensures OccursSome(bases, Show(ps, names))
  {
    Uncons(|bases|, ps);
    ShowHead(ps[0], ps[1..], names);
    if j :| 0 <= j < |bases| && Spells(ps, bases[j].token) {
      SpelledShows(ps, bases[j].token, names);
      StartsWithHead(bases[j].token, Show(ps[|bases[j].token|..], names));
      OccursFirst(Show(ps, names), bases[j].token);
    } else {
      SpelledOccurs(bases, ps[1..], names);
      var j :| 0 <= j < |bases| && Occurs(Show(ps[1..], names), bases[j].token);
      OccursLater(ShowOne(ps[0], names), Show(ps[1..], names), bases[j].token);
    }
  }

  lemma {:induction false} OccursSpelled(bases: seq<Base>, ps: seq<Piece>, names: seq<string>, j: nat, at: nat)
    requires BasesOk(bases) && |names| == |bases| && AllRoots(names) && PiecesOk(|bases|, ps) && j < |bases|
    requires at <= |Show(ps, names)| && FoundAt(Show(ps, names), bases[j].token, at)
    ensures !Unspelled(bases, ps)
    decreases |ps|
  {
    var token, text := bases[j].token, Show(ps, names);
    assert TokenOk(token);
    assert text[at..][..|token|][0] == text[at] == '$';
    Uncons(|bases|, ps);
    ShowHead(ps[0], ps[1..], names);
    var one, rest := ShowOne(ps[0], names), Show(ps[1..], names);
    RootHasNoDollar(ps[0], names);
    if at == 0 && ps[0].Lit? {
      assert text[0..] == text;
      StartsMeansSpells(bases, ps, token, names);
    } else {
      assert text == one + rest;
      assert forall i :: 0 <= i < |one| ==> text[i] == one[i];
      assert at >= |one|;
      assert text[at..] == rest[at - |one|..];
      OccursSpelled(bases, ps[1..], names, j, at - |one|);
    }
  }

  lemma {:induction false} RootHasNoDollar(p: Piece, names: seq<string>)
    requires AllRoots(names) && (p.Tok? ==> p.i < |names|)
    ensures p.Tok? ==> forall i :: 0 <= i < |ShowOne(p, names)| ==> ShowOne(p, names)[i] != '$'
    ensures |ShowOne(p, names)| > 0
  {
    if p.Tok? {
      assert RootOk(names[p.i]);
    }
  }

  /** The text with every directory that is found in it, the deepest first, in
      the spelling chosen for its token. */
  ghost function Respelled(bases: seq<Base>, text: string): string {
    FoundOk(bases, text, |bases|);
    Show(Found(bases, text, |bases|), ChosenOf(bases))
  }

  lemma {:induction false} ChosenAreRoots(bases: seq<Base>)
    requires BasesOk(bases)
    ensures AllRoots(ChosenOf(bases)) && AllRoots(RootsOf(bases))
  {
    LocalizationsAreSpellings(bases);
    NamesAfterOk(bases, Localizations(bases));
  }

  lemma {:induction false} RespelledIsAbsolute(bases: seq<Base>, text: string)
    requires BasesOk(bases) && |text| > 0 && text[0] == '/'
    ensures |Respelled(bases, text)| > 0 && Respelled(bases, text)[0] == '/'
  {
    hide Found, Localizations;
    var ps, names := Found(bases, text, |bases|), ChosenOf(bases);
    FoundOk(bases, text, |bases|);
    ChosenAreRoots(bases);
    Uncons(|bases|, ps);
    if ps[0].Lit? {
      assert text[0] == ps[0].c;
    } else {
      assert RootOk(names[ps[0].i]);
    }
  }

  /** Normalizing and then localizing turns each directory into the spelling
      chosen for its token, and changes nothing else, exactly when none of the
      tokens occurs in the text. */
  lemma {:induction false} RoundTripExactly(bases: seq<Base>, text: string)
    requires BasesOk(bases)
    ensures Localize(bases, Normalize(bases, text)) == Respelled(bases, text) <==> !OccursSome(bases, text)
  {
    hide Show, Found, Localizations, Parsed, Led, ReplacedAll, Unspelled, BasesOk;
    var ps, portable := Found(bases, text, |bases|), Normalize(bases, text);
    FoundOk(bases, text, |bases|);
    NormalizedShows(bases, text, |bases|);
    assert Normalizations(bases)[..|bases|] == Normalizations(bases);
    LocalizesAllAtOnce(bases, portable);
    ParsedShows(bases, portable);
    ReadAgain(bases, ps);
    ChosenAreRoots(bases);
    if Unspelled(bases, ps) {
      LedShows(bases, ps, Localizations(bases));
      if j, at :| 0 <= j < |bases| && 0 <= at <= |text| && FoundAt(text, bases[j].token, at) {
        OccursSpelled(bases, ps, RootsOf(bases), j, at);
      }
    } else {
      SpelledOccurs(bases, ps, RootsOf(bases));
      DollarsShown(bases, ps, ChosenOf(bases));
      DollarsShown(bases, Parsed(bases, portable), ChosenOf(bases));
    }
  }

  /** Every directory is in the spelling its token localizes to. */
  ghost predicate OneSpelling(bases: seq<Base>) {
    ChosenOf(bases) == RootsOf(bases)
  }

  /** With one spelling for each token the text itself comes back, exactly when
      none of the tokens occurs in it. */
  lemma {:induction false} ComesBackExactly(bases: seq<Base>, text: string)
    requires BasesOk(bases) && OneSpelling(bases)
    ensures Localize(bases, Normalize(bases, text)) == text <==> !OccursSome(bases, text)
  {
    hide Show, Found, Localizations, Normalize, Localize;
    RoundTripExactly(bases, text);
    FoundOk(bases, text, |bases|);
  }

  lemma {:induction false} LocalNameOfRule(rules: seq<Rule>, i: nat)
    requires i < |rules| && DistinctTokens(rules)
    ensures LocalName(rules, rules[i].from) == rules[i].to
  {
    if i > 0 {
      LocalNameOfRule(rules[1..], i - 1);
    }
  }

  /** Distinct tokens have one spelling each. */
  lemma {:induction false} DistinctTokensOneSpelling(bases: seq<Base>)
    requires forall i, j :: 0 <= i < j < |bases| ==> bases[i].token != bases[j].token
    ensures OneSpelling(bases)
  {
    var rules := Localizations(bases);
    LocalizationsAreSpellings(bases);
    forall i | 0 <= i < |bases|
      ensures ChosenOf(bases)[i] == RootsOf(bases)[i]
    {
      assert HasRule(rules, bases[i].token);
      var m :| 0 <= m < |rules| && rules[m].from == bases[i].token;
      LocalNameOfRule(rules, m);
      var j :| 0 <= j < |bases| && bases[j] == Base(rules[m].from, rules[m].to);
    }
  }

  lemma {:induction false} PlainTextComesBack(bases: seq<Base>, text: string)
    requires BasesOk(bases) && !HasChar(text, '$')
    ensures Localize(bases, Normalize(bases, text)) == Respelled(bases, text)
  {
    hide Respelled, Normalize, Localize;
    RoundTripExactly(bases, text);
    forall j, at | 0 <= j < |bases| && 0 <= at <= |text|
      ensures !FoundAt(text, bases[j].token, at)
    {
      assert TokenOk(bases[j].token);
      NoDollarNoToken(text, bases[j].token, at);
    }
  }

  lemma {:induction false} NoDollarNoToken(text: string, token: string, at: nat)
    requires TokenOk(token) && !HasChar(text, '$') && at <= |text|
    ensures !FoundAt(text, token, at)
  {
    if at < |text| && |token| <= |text| - at {
      assert text[at..][..|token|][0] == text[at];
    }
  }

  /** A text that names a token does not come back. */
  lemma {:induction false} TokenDoesNotComeBack(b: Base)
    requires RootOk(b.root) && TokenOk(b.token)
    ensures Localize([b], Normalize([b], b.token)) != b.token
  {
    hide Normalize, Localize, OneSpelling;
    DistinctTokensOneSpelling([b]);
    ComesBackExactly([b], b.token);
    assert b.token[..|b.token|] == b.token;
    OccursFirst(b.token, b.token);
    assert Occurs(b.token, [b][0].token);
  }

  // ----- The deepest directory wins ----------------------------------------

  ghost predicate LongestFirst(bases: seq<Base>) {
    forall i, j :: 0 <= i < j < |bases| ==> |bases[j].root| <= |bases[i].root|
  }

  ghost predicate DistinctRoots(bases: seq<Base>) {
    forall i, j :: 0 <= i < j < |bases| ==> bases[i].root != bases[j].root
  }

  lemma {:induction false} ByLengthAdds(bases: seq<Base>, b: Base)
    ensures multiset(ByLength(bases, b)) == multiset(bases) + multiset{b}
  {
    if |bases| > 0 && |b.root| > |bases[|bases| - 1].root| {
      ByLengthAdds(bases[..|bases| - 1], b);
      assert bases == bases[..|bases| - 1] + [bases[|bases| - 1]];
    }
  }

  lemma {:induction false} ByLengthHas(bases: seq<Base>, b: Base)
    ensures forall i :: 0 <= i < |ByLength(bases, b)| ==> ByLength(bases, b)[i] == b || ByLength(bases, b)[i] in bases
  {
    ByLengthAdds(bases, b);
    forall i | 0 <= i < |ByLength(bases, b)|
      ensures ByLength(bases, b)[i] == b || ByLength(bases, b)[i] in bases
    {
      assert ByLength(bases, b)[i] in multiset(ByLength(bases, b));
    }
  }

  lemma {:induction false} OneMoreAtTheEnd(bases: seq<Base>, last: Base)
    requires LongestFirst(bases) && DistinctRoots(bases)
    requires forall i :: 0 <= i < |bases| ==> |last.root| <= |bases[i].root| && bases[i].root != last.root
    ensures LongestFirst(bases + [last]) && DistinctRoots(bases + [last])
  {
  }

  lemma {:induction false} ByLengthKeeps(bases: seq<Base>, b: Base)
    requires LongestFirst(bases) && DistinctRoots(bases) && forall i :: 0 <= i < |bases| ==> bases[i].root != b.root
    ensures LongestFirst(ByLength(bases, b)) && DistinctRoots(ByLength(bases, b))
  {
    if |bases| > 0 && |b.root| > |bases[|bases| - 1].root| {
      var front, last := bases[..|bases| - 1], bases[|bases| - 1];
      ByLengthKeeps(front, b);
      ByLengthHas(front, b);
      forall x | x in front
        ensures |last.root| <= |x.root| && x.root != last.root
      {
      }
      OneMoreAtTheEnd(ByLength(front, b), last);
    } else {
      OneMoreAtTheEnd(bases, b);
    }
  }

  lemma {:induction false} RenderedAreDistinct(given: seq<Base>)
    ensures DistinctRoots(Rendered(given)) && forall b :: b in Rendered(given) ==> |b.root| > 0
  {
    if |given| > 0 {
      RenderedAreDistinct(given[..|given| - 1]);
    }
  }

  lemma {:induction false} SortedKeeps(bases: seq<Base>)
    requires DistinctRoots(bases)
    ensures LongestFirst(Sorted(bases)) && DistinctRoots(Sorted(bases)) && multiset(Sorted(bases)) == multiset(bases)
  {
    if |bases| > 0 {
      var front, last := bases[..|bases| - 1], bases[|bases| - 1];
      assert bases == front + [last];
      SortedKeeps(front);
      forall i | 0 <= i < |Sorted(front)|
        ensures Sorted(front)[i].root != last.root
      {
        assert Sorted(front)[i] in multiset(front);
        assert Sorted(front)[i] in front;
      }
      ByLengthKeeps(Sorted(front), last);
      ByLengthAdds(Sorted(front), last);
    }
  }

  /** A new normalizer has every non-empty directory once, longest first. */
  lemma {:induction false} NewIsOrdered(given: seq<Base>)
    ensures LongestFirst(New(given)) && DistinctRoots(New(given)) && multiset(New(given)) == multiset(Rendered(given))
  {
    RenderedAreDistinct(given);
    SortedKeeps(Rendered(given));
  }

  lemma {:induction false} TooLongToOccur(text: string, from: string, to: string)
    requires |from| > 0 && |text| <= |from| && text != from
    ensures Replaced(text, from, to) == text
  {
    if |text| > 0 {
      assert text[..|text|] == text;
      assert text == [text[0]] + text[1..];
      TooLongToOccur(text[1..], from, to);
    }
  }

  lemma {:induction false} RootPassesLongerOnes(bases: seq<Base>, i: nat, k: nat)
    requires BasesOk(bases) && LongestFirst(bases) && DistinctRoots(bases) && k <= i < |bases|
    ensures ReplacedAll(bases[i].root, Normalizations(bases)[..k]) == bases[i].root
  {
    if k > 0 {
      RootPassesLongerOnes(bases, i, k - 1);
      assert Normalizations(bases)[..k][..k - 1] == Normalizations(bases)[..k - 1];
      assert RootOk(bases[k - 1].root);
      TooLongToOccur(bases[i].root, bases[k - 1].root, bases[k - 1].token);
    }
  }

  /** However directories nest, each normalizes to exactly its own token. */
  lemma {:induction false} RootBecomesToken(b: Base)
    requires |b.root| > 0
    ensures Replaced(b.root, b.root, b.token) == b.token
  {
    assert b.root + [] == b.root && b.token + [] == b.token;
    ReplacesHead(b.root, [], b.token);
    NothingLeft(b.root, b.token);
  }

  lemma {:induction false} TokenPasses(token: string, other: Base)
    requires TokenOk(token) && RootOk(other.root)
    ensures Replaced(token, other.root, other.token) == token
  {
    assert token + [] == token;
    CopiesBlock(token, [], other.root, other.token);
    NothingLeft(other.root, other.token);
  }

  /** However directories nest, each normalizes to exactly its own token. */
  lemma {:induction false} RootsBecomeTheirTokens(bases: seq<Base>, i: nat, k: nat)
    requires BasesOk(bases) && LongestFirst(bases) && DistinctRoots(bases) && i < k <= |bases|
    ensures ReplacedAll(bases[i].root, Normalizations(bases)[..k]) == bases[i].token
  {
    hide Replaced, LongestFirst, DistinctRoots;
    assert RootOk(bases[i].root) && TokenOk(bases[i].token) && RootOk(bases[k - 1].root);
    assert Normalizations(bases)[..k][..k - 1] == Normalizations(bases)[..k - 1];
    if k == i + 1 {
      RootPassesLongerOnes(bases, i, i);
      RootBecomesToken(bases[i]);
    } else {
      RootsBecomeTheirTokens(bases, i, k - 1);
      TokenPasses(bases[i].token, bases[k - 1]);
    }
  }

  lemma {:induction false} EachRootHasItsToken(bases: seq<Base>, i: nat)
    requires BasesOk(bases) && LongestFirst(bases) && DistinctRoots(bases) && i < |bases|
    ensures Normalize(bases, bases[i].root) == bases[i].token
  {
    RootsBecomeTheirTokens(bases, i, |bases|);
    assert Normalizations(bases)[..|bases|] == Normalizations(bases);
  }
}
