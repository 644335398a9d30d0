/** What a collection does to the record of last uses: no surviving candidate's
    last use is forgotten. */
module Recency {
  import opened Results
  import opened Journal
  import Seqs

  // ----- Writing a line and reading it back --------------------------------

  function Decimal(n: nat): (r: string)
    ensures r != [] && forall i :: 0 <= i < |r| ==> IsDigit(r[i])
  {
    var d := [('0' as int + n % 10) as char];
    if n < 10 then d else Decimal(n / 10) + d
  }

  function FormatLine(key: string, action: string, ms: nat): string {
    key + [' '] + (action + [' '] + Decimal(ms))
  }

  lemma {:induction false} DecimalParses(n: nat)
    ensures ParseDigits(Decimal(n)) == Some(n)
  {
    var d := ('0' as int + n % 10) as char;
    if n < 10 {
      assert [d][..0] == [];
    } else {
      DecimalParses(n / 10);
      Seqs.Append(Decimal(n / 10), d);
    }
  }

  lemma {:induction false} IndexOfAfter(a: string, c: char, b: string)
    requires forall i :: 0 <= i < |a| ==> a[i] != c
    ensures IndexOf(a + [c] + b, c) == |a|
  {
    var s := a + [c] + b;
    if a != [] {
      IndexOfAfter(a[1..], c, b);
      assert s[1..] == a[1..] + [c] + b;
    }
  }

  lemma {:induction false} IndexOfNone(a: string, c: char)
    requires forall i :: 0 <= i < |a| ==> a[i] != c
    ensures IndexOf(a, c) == |a|
  {
    if a != [] {
      IndexOfNone(a[1..], c);
    }
  }

  lemma {:induction false} SplitFirst(a: string, c: char, b: string)
    requires forall i :: 0 <= i < |a| ==> a[i] != c
    ensures Split(a + [c] + b, c) == [a] + Split(b, c)
  {
    var s := a + [c] + b;
    IndexOfAfter(a, c, b);
    assert s[..|a|] == a && s[|a| + 1..] == b;
  }

  lemma {:induction false} FormatParses(key: string, action: string, ms: nat)
    requires ValidKey(key) && ValidKey(action) && ms <= U64_MAX
    ensures ParseLine(FormatLine(key, action, ms)) == [Entry(key, action, ms)]
  {
    hide IndexOf, ParseDigits;
    var digits := Decimal(ms);
    SplitFirst(key, ' ', action + [' '] + digits);
    SplitFirst(action, ' ', digits);
    IndexOfNone(digits, ' ');
    assert Split(FormatLine(key, action, ms), ' ') == [key, action, digits];
    DecimalParses(ms);
    assert IsDigit(digits[0]);
  }

  lemma {:induction false} FormattedLineReads(key: string, action: string, ms: nat)
    requires ValidKey(key) && ValidKey(action) && ms <= U64_MAX
    ensures Entries(FormatLine(key, action, ms) + ['\n']) == [Entry(key, action, ms)]
  {
    var line := FormatLine(key, action, ms);
    var text := line + ['\n'];
    assert forall i :: 0 <= i < |line| ==> line[i] != '\n' && line[i] != '\r';
    IndexOfAfter(line, '\n', []);
    assert text == line + ['\n'] + [];
    assert text[..|line|] == line && text[|line| + 1..] == [];
    assert FirstLine(text) == line && AfterFirstLine(text) == [];
    assert Lines(text) == [line];
    FormatParses(key, action, ms);
    assert [line][..0] == [] && [line][0] == line;
    assert EntriesOf([line]) == EntriesOf([]) + ParseLine(line);
  }

  // ----- Last uses ---------------------------------------------------------

  function Max(a: nat, b: nat): nat {
    if a < b then b else a
  }

  /** The newest entry for a candidate, or zero. */
  ghost function LastUse(entries: seq<Entry>, key: string, action: string): nat {
    if entries == [] then 0 else
      var e := entries[|entries| - 1];
      Max(LastUse(entries[..|entries| - 1], key, action), if e.key == key && e.action == action then e.ms else 0)
  }

  lemma {:induction false} LastUseConcat(a: seq<Entry>, b: seq<Entry>, key: string, action: string)
    ensures LastUse(a + b, key, action) == Max(LastUse(a, key, action), LastUse(b, key, action))
  {
    if b == [] {
      Seqs.Empty(a);
    } else {
      LastUseConcat(a, b[..|b| - 1], key, action);
      TakeLast(a, b);
    }
  }

  /** `journal.log`, a rotated `journal-….log`, or a `compact-….log`. */
  datatype FileName = Current | Rotated(id: nat) | Compacted(started: nat)

  /** The journal files by name. */
  type Files = map<FileName, string>

  ghost function Greatest<K>(m: map<K, nat>): nat
    decreases |m|
  {
    if m == map[] then 0 else
      var k :| k in m;
      Smaller(m, k);
      Max(m[k], Greatest(m - {k}))
  }

  lemma {:induction false} Smaller<K, V>(m: map<K, V>, k: K)
    requires k in m
    ensures |m - {k}| == |m| - 1
  {
    assert m.Keys == (m - {k}).Keys + {k};
  }

  lemma {:induction false} GreatestSplit<K>(m: map<K, nat>, k: K)
    requires k in m
    ensures Greatest(m) == Max(m[k], Greatest(m - {k}))
    decreases |m|
  {
    var l :| l in m && Greatest(m) == Max(m[l], Greatest(m - {l}));
    if l != k {
      var without_l, without_k := m - {l}, m - {k};
      Smaller(m, k);
      Smaller(m, l);
      GreatestSplit(without_l, k);
      GreatestSplit(without_k, l);
      assert without_l[k] == m[k] && without_k[l] == m[l];
      assert without_l - {k} == without_k - {l};
      assert Greatest(without_l) == Max(m[k], Greatest(without_l - {k}));
      assert Greatest(without_k) == Max(m[l], Greatest(without_k - {l}));
      assert Greatest(m) == Max(m[l], Greatest(without_l));
      assert Greatest(without_l - {k}) == Greatest(without_k - {l});
    } else {
      assert Greatest(m) == Max(m[k], Greatest(m - {k}));
    }
  }

  ghost function UsesByFile(files: Files, key: string, action: string): map<FileName, nat> {
    map n | n in files :: LastUse(Entries(files[n]), key, action)
  }

  /** The newest entry for a candidate in any file, or zero. */
  ghost function LastUseIn(files: Files, key: string, action: string): nat {
    Greatest(UsesByFile(files, key, action))
  }

  lemma {:induction false} LastUseSplit(files: Files, n: FileName, key: string, action: string)
    requires n in files
    ensures LastUseIn(files, key, action)
      == Max(LastUse(Entries(files[n]), key, action), LastUseIn(files - {n}, key, action))
  {
    GreatestSplit(UsesByFile(files, key, action), n);
    assert UsesByFile(files, key, action) - {n} == UsesByFile(files - {n}, key, action);
  }

  // ----- Reading every journal ---------------------------------------------

  ghost function Known(uses: map<(string, string), nat>, key: string, action: string): nat {
    if (key, action) in uses then uses[(key, action)] else 0
  }

  /** One file's lines, each raising its candidate's newest use. */
  method AddUses(entries: seq<Entry>, before: map<(string, string), nat>) returns (uses: map<(string, string), nat>)
    ensures forall k, a :: Known(uses, k, a) == Max(Known(before, k, a), LastUse(entries, k, a))
  {
    uses := before;
    for i := 0 to |entries|
      invariant forall k, a :: Known(uses, k, a) == Max(Known(before, k, a), LastUse(entries[..i], k, a))
    {
      var e := entries[i];
      var slot := if (e.key, e.action) in uses then uses[(e.key, e.action)] else 0;
      uses := uses[(e.key, e.action) := Max(slot, e.ms)];
      assert entries[..i + 1][..i] == entries[..i] && entries[..i + 1][i] == e;
    }
    assert entries[..|entries|] == entries;
  }

  method ReadJournal(files: Files) returns (uses: map<(string, string), nat>)
    ensures forall k, a :: Known(uses, k, a) == LastUseIn(files, k, a)
  {
    uses := map[];
    var rest := files;
    while rest != map[]
      invariant forall k, a :: LastUseIn(files, k, a) == Max(Known(uses, k, a), LastUseIn(rest, k, a))
      decreases |rest|
    {
      var n :| n in rest;
      Smaller(rest, n);
      forall k, a
        ensures LastUseIn(rest, k, a) == Max(LastUse(Entries(rest[n]), k, a), LastUseIn(rest - {n}, k, a))
      {
        LastUseSplit(rest, n, k, a);
      }
      uses := AddUses(Entries(rest[n]), uses);
      rest := rest - {n};
    }
  }

  // ----- Rotating and compacting -------------------------------------------

  /** One evictable candidate as the snapshot saw it. */
  datatype Unit = Unit(key: string, action: string, created: nat, lastUsed: nat)

  function Rotate(files: Files, rotated: FileName): Files {
    if Current in files then (files - {Current})[rotated := files[Current]] else files
  }

  /** One line for each surviving candidate whose last use came from the journal. */
  function CompactLines(units: seq<Unit>, evicted: seq<bool>): string
    requires |units| == |evicted|
  {
    if units == [] then [] else
      var n := |units| - 1;
      var u := units[n];
      CompactLines(units[..n], evicted[..n])
      + if !evicted[n] && u.lastUsed > u.created then FormatLine(u.key, u.action, u.lastUsed) + ['\n'] else []
  }

  /** Replaces every file but the current one by the compacted lines. */
  function Compact(files: Files, keep: FileName, lines: string): Files {
    map n | n in files.Keys + {keep} && (n == Current || n == keep) && (n in files || lines != []) ::
      if n == keep && lines != [] then lines else files[n]
  }

  method CompactJournal(files: Files, keep: FileName, units: seq<Unit>, evicted: seq<bool>) returns (r: Files)
    requires |units| == |evicted| && keep != Current
    ensures r == Compact(files, keep, CompactLines(units, evicted))
  {
    hide FormatLine;
    var read := files.Keys - {Current};
    var lines := [];
    for i := 0 to |units|
      invariant lines == CompactLines(units[..i], evicted[..i])
    {
      var u := units[i];
      if !evicted[i] && u.lastUsed > u.created {
        lines := lines + (FormatLine(u.key, u.action, u.lastUsed) + ['\n']);
      }
      assert units[..i + 1][..i] == units[..i] && evicted[..i + 1][..i] == evicted[..i];
    }
    assert units[..|units|] == units && evicted[..|units|] == evicted;
    r := files;
    if lines != [] {
      r := r[keep := lines];
    }
    r := r - (read - {keep});
  }

  // ----- Recency survives --------------------------------------------------

  ghost predicate Readable(u: Unit) {
    ValidKey(u.key) && ValidKey(u.action) && u.lastUsed <= U64_MAX
  }

  ghost predicate Same(u: Unit, key: string, action: string) {
    u.key == key && u.action == action
  }

  lemma {:induction false} CompactLinesAreWhole(units: seq<Unit>, evicted: seq<bool>)
    requires |units| == |evicted|
    ensures Whole(CompactLines(units, evicted))
  {
    if units != [] {
      CompactLinesAreWhole(units[..|units| - 1], evicted[..|units| - 1]);
    }
  }

  /** What the compacted file says of a candidate comes from its own unit. */
  lemma {:induction false} CompactedUse(units: seq<Unit>, evicted: seq<bool>, key: string, action: string, at: nat)
    requires |units| == |evicted| && forall i :: 0 <= i < |units| ==> Readable(units[i])
    requires forall i :: 0 <= i < |units| && i != at ==> !Same(units[i], key, action)
    requires at < |units| ==> Same(units[at], key, action)
    ensures LastUse(Entries(CompactLines(units, evicted)), key, action)
      == if at < |units| && !evicted[at] && units[at].lastUsed > units[at].created then units[at].lastUsed else 0
  {
    if units != [] {
      var n := |units| - 1;
      CompactedUse(units[..n], evicted[..n], key, action, at);
      CompactLinesAreWhole(units[..n], evicted[..n]);
      AddCompactLine(units[n], CompactLines(units[..n], evicted[..n]), evicted[n], key, action);
      assert n == at || !Same(units[n], key, action);
    }
  }

  lemma {:induction false} AddCompactLine(u: Unit, before: string, evicted: bool, key: string, action: string)
    requires Readable(u) && Whole(before)
    ensures var line := if !evicted && u.lastUsed > u.created then FormatLine(u.key, u.action, u.lastUsed) + ['\n'] else [];
      LastUse(Entries(before + line), key, action) == Max(LastUse(Entries(before), key, action),
        if !evicted && u.lastUsed > u.created && Same(u, key, action) then u.lastUsed else 0)
  {
    if !evicted && u.lastUsed > u.created {
      var e := Entry(u.key, u.action, u.lastUsed);
      FormattedLineReads(u.key, u.action, u.lastUsed);
      EntriesConcat(before, FormatLine(u.key, u.action, u.lastUsed) + ['\n']);
      LastUseConcat(Entries(before), [e], key, action);
      OneUse(e, key, action);
    } else {
      Seqs.Empty(before);
    }
  }

  lemma {:induction false} OneUse(e: Entry, key: string, action: string)
    ensures LastUse([e], key, action) == if e.key == key && e.action == action then e.ms else 0
  {
    assert [e][..0] == [];
  }

  function Text(files: Files): string {
    if Current in files then files[Current] else []
  }

  /** The current journal keeps growing, a line at a time, while the collection
      runs; the other files stay. */
  ghost predicate Later(early: Files, late: Files) {
    && early - {Current} == late - {Current}
    && Whole(Text(early)) && Text(early) <= Text(late)
  }

  lemma {:induction false} CurrentGrows(early: string, late: string, key: string, action: string)
    requires Whole(early) && early <= late
    ensures LastUse(Entries(early), key, action) <= LastUse(Entries(late), key, action)
  {
    var rest := late[|early|..];
    assert late == early + rest;
    EntriesConcat(early, rest);
    LastUseConcat(Entries(early), Entries(rest), key, action);
  }

  lemma {:induction false} UseOfText(files: Files, key: string, action: string)
    ensures LastUseIn(files, key, action)
      == Max(LastUse(Entries(Text(files)), key, action), LastUseIn(files - {Current}, key, action))
  {
    if Current in files {
      LastUseSplit(files, Current, key, action);
    } else {
      assert files - {Current} == files;
      assert Entries([]) == [];
    }
  }

  lemma {:induction false} LaterUses(early: Files, late: Files, key: string, action: string)
    requires Later(early, late)
    ensures LastUseIn(late, key, action)
      == Max(LastUseIn(early, key, action), LastUse(Entries(Text(late)), key, action))
  {
    UseOfText(early, key, action);
    UseOfText(late, key, action);
    CurrentGrows(Text(early), Text(late), key, action);
  }

  /** Rotating the journal moves its lines and loses none. */
  lemma {:induction false} RotatingKeepsUses(files: Files, rotated: FileName, key: string, action: string)
    requires rotated !in files
    ensures LastUseIn(Rotate(files, rotated), key, action) == LastUseIn(files, key, action)
    ensures rotated != Current ==> Text(Rotate(files, rotated)) == []
  {
    if Current in files {
      var r := Rotate(files, rotated);
      LastUseSplit(files, Current, key, action);
      LastUseSplit(r, rotated, key, action);
      assert r - {rotated} == files - {Current};
    }
  }

  /** From the rotation to the end of a collection the uses are those from
      before and those of the fresh journal. */
  lemma {:induction false} UsesSinceRotation(before: Files, rotated: FileName, early: Files, late: Files, key: string, action: string)
    requires rotated !in before && rotated != Current
    requires Later(Rotate(before, rotated), early) && Later(early, late)
    ensures LastUseIn(late, key, action)
      == Max(LastUseIn(before, key, action), LastUse(Entries(Text(late)), key, action))
  {
    hide LastUse, LastUseIn, Entries;
    RotatingKeepsUses(before, rotated, key, action);
    LaterUses(Rotate(before, rotated), early, key, action);
    LaterUses(early, late, key, action);
    CurrentGrows(Text(early), Text(late), key, action);
  }

  /** A collection forgets no survivor's last use: after the journal was
      rotated, read and compacted, reading it gives each candidate that was not
      planned for eviction the last use it had before the rotation, or the
      newer one of the fresh journal. */
  lemma {:induction false} RecencySurvives(
      before: Files, rotated: FileName, early: Files, late: Files, keep: FileName, units: seq<Unit>, evicted: seq<bool>, at: nat)
    requires rotated !in before && rotated != Current && keep != Current
    requires Later(Rotate(before, rotated), early) && Later(early, late)
    requires |units| == |evicted| && at < |units| && !evicted[at]
    requires forall i :: 0 <= i < |units| ==> Readable(units[i])
    requires forall i :: 0 <= i < |units| && i != at ==> !Same(units[i], units[at].key, units[at].action)
    requires units[at].lastUsed == Max(units[at].created, LastUseIn(early, units[at].key, units[at].action))
    ensures var u, after := units[at], Compact(late, keep, CompactLines(units, evicted));
      Max(u.created, LastUseIn(after, u.key, u.action))
        == Max(u.created, Max(LastUseIn(before, u.key, u.action), LastUse(Entries(Text(late)), u.key, u.action)))
  {
    hide LastUse, LastUseIn, Entries, CompactLines, Compact, Later;
    var u := units[at];
    CompactingKeepsUses(early, late, keep, units, evicted, at);
    UsesSinceRotation(before, rotated, early, late, u.key, u.action);
  }

  lemma {:induction false} CompactingKeepsUses(early: Files, late: Files, keep: FileName, units: seq<Unit>, evicted: seq<bool>, at: nat)
    requires Later(early, late) && keep != Current
    requires |units| == |evicted| && at < |units| && !evicted[at]
    requires forall i :: 0 <= i < |units| ==> Readable(units[i])
    requires forall i :: 0 <= i < |units| && i != at ==> !Same(units[i], units[at].key, units[at].action)
    requires units[at].lastUsed == Max(units[at].created, LastUseIn(early, units[at].key, units[at].action))
    ensures var u, after := units[at], Compact(late, keep, CompactLines(units, evicted));
      Max(u.created, LastUseIn(after, u.key, u.action)) == Max(u.created, LastUseIn(late, u.key, u.action))
  {
    var u := units[at];
    var lines := CompactLines(units, evicted);
    var after := Compact(late, keep, lines);
    CompactedUse(units, evicted, u.key, u.action, at);
    LaterUses(early, late, u.key, u.action);
    UseOfText(after, u.key, u.action);
    assert Text(after) == Text(late);
    OnlyTheKeptFile(late, keep, lines, u.key, u.action);
    assert Entries([]) == [];
    if lines == [] && keep in late {
      KeptFileIsOld(early, late, keep, u.key, u.action);
    }
    CombineUses(
      u.created, LastUseIn(early, u.key, u.action), LastUse(Entries(Text(late)), u.key, u.action),
      LastUseIn(after - {Current}, u.key, u.action));
  }

  lemma {:induction false} KeptFileIsOld(early: Files, late: Files, keep: FileName, key: string, action: string)
    requires Later(early, late) && keep != Current && keep in late
    ensures LastUse(Entries(late[keep]), key, action) <= LastUseIn(early, key, action)
  {
    assert keep in late - {Current};
    assert keep in early && early[keep] == (early - {Current})[keep] == late[keep];
    LastUseSplit(early, keep, key, action);
  }

  lemma {:induction false} CombineUses(created: nat, early: nat, appended: nat, compacted: nat)
    requires if early > created then compacted == early else compacted <= created
    ensures Max(created, Max(appended, compacted)) == Max(created, Max(early, appended))
  {
  }

  lemma {:induction false} OnlyTheKeptFile(late: Files, keep: FileName, lines: string, key: string, action: string)
    requires keep != Current
    ensures LastUseIn(Compact(late, keep, lines) - {Current}, key, action)
      == if lines != [] then LastUse(Entries(lines), key, action)
         else if keep in late then LastUse(Entries(late[keep]), key, action) else 0
  {
    var rest := Compact(late, keep, lines) - {Current};
    if keep in rest {
      LastUseSplit(rest, keep, key, action);
      assert rest - {keep} == map[];
    } else {
      assert rest == map[];
    }
  }
}
