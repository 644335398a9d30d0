/** Archives as they are laid out, and that reading them gives the names back. */
module ArchiveLayout {
  import opened Results
  import opened DepInfo
  import opened LinkCommand
  import opened Replace
  import opened Archive
  import Journal
  import Recency
  import Seqs

  // ----- Fields ------------------------------------------------------------

  predicate IsAscii(s: string) {
    forall i :: 0 <= i < |s| ==> (s[i] as int) < 128
  }

  /** Plain ASCII is text, and read as it stands. */
  ghost predicate ReadsAscii(d: Decoder) {
    forall s :: IsAscii(s) ==> d.valid(s) && d.lossy(s) == s
  }

  function Spaces(n: nat): (r: string)
    ensures |r| == n && IsAscii(r) && forall i :: 0 <= i < n ==> r[i] == ' '
  {
    seq(n, i => ' ')
  }

  /** A field filled up with spaces. */
  function Padded(s: string, width: nat): (r: string)
    requires |s| <= width
    ensures |r| == width
  {
    s + Spaces(width - |s|)
  }

  predicate Trimmed(s: string) {
    |s| > 0 ==> !IsSpace(s[|s| - 1])
  }

  lemma {:induction false} PaddingTrims(s: string, n: nat)
    requires Trimmed(s)
    ensures TrimEnd(s + Spaces(n)) == s
  {
    if n == 0 {
      assert s + Spaces(n) == s;
    } else {
      assert (s + Spaces(n))[..|s| + n - 1] == s + Spaces(n - 1);
      PaddingTrims(s, n - 1);
    }
  }

  /** One member: a name field, fields that are not read, the data. */
  datatype Entry = Entry(name: string, between: string, data: string)

  predicate EntryOk(e: Entry) {
    |e.name| <= 16 && IsAscii(e.name) && Trimmed(e.name) && |e.between| == 32
    && |Recency.Decimal(|e.data|)| <= 10 && |e.data| <= Journal.U64_MAX
  }

  function HeaderOf(e: Entry): (r: string)
    requires EntryOk(e)
    ensures |r| == HEADER
  {
    Padded(e.name, 16) + (e.between + (Padded(Recency.Decimal(|e.data|), 10) + HEADER_END))
  }

  function Pad(n: nat): string {
    if n % 2 == 1 then ['\n'] else []
  }

  function Laid(es: seq<Entry>, tail: string): string
    requires forall i :: 0 <= i < |es| ==> EntryOk(es[i])
  {
    if |es| == 0 then tail else HeaderOf(es[0]) + (es[0].data + (Pad(|es[0].data|) + Laid(es[1..], tail)))
  }

  // ----- Reading headers ---------------------------------------------------

  lemma {:induction false} DecimalIsAscii(n: nat)
    ensures IsAscii(Recency.Decimal(n)) && Trimmed(Recency.Decimal(n)) && !IsSpace(Recency.Decimal(n)[0])
    ensures Recency.Decimal(n)[0] != '+'
  {
    var r := Recency.Decimal(n);
    assert forall i :: 0 <= i < |r| ==> Journal.IsDigit(r[i]);
  }

  lemma {:induction false} DecimalIsRead(n: nat)
    requires n <= Journal.U64_MAX
    ensures Journal.ParseU64(Recency.Decimal(n)) == Some(n)
  {
    DecimalIsAscii(n);
    Recency.DecimalParses(n);
  }

  lemma {:induction false} HeaderSlices(name: string, between: string, size: string, end: string)
    requires |name| == 16 && |between| == 32 && |size| == 10 && |end| == 2
    ensures var h := name + (between + (size + end));
      |h| == HEADER && h[..16] == name && h[48..58] == size && h[58..60] == end
  {
  }

  lemma {:induction false} HeaderReads(d: Decoder, e: Entry)
    requires ReadsAscii(d) && EntryOk(e)
    ensures ReadHeader(d, HeaderOf(e)) == Some(Header(e.name, |e.data|))
  {
    hide Recency.Decimal, Journal.ParseU64, TrimEnd, Spaces, IsSpace;
    var n := |e.data|;
    var digits := Recency.Decimal(n);
    DecimalIsAscii(n);
    DecimalIsRead(n);
    var name, size := Padded(e.name, 16), Padded(digits, 10);
    HeaderSlices(name, e.between, size, HEADER_END);
    assert IsAscii(name) && IsAscii(size);
    PaddingTrims(e.name, 16 - |e.name|);
    PaddingTrims(digits, 10 - |digits|);
    assert TrimStart(digits) == digits;
  }

  // ----- Reading members ---------------------------------------------------

  /** What the members add, one after the other. */
  function Reading(d: Decoder, es: seq<Entry>, longNames: string): Option<seq<string>> {
    if |es| == 0 then Some([]) else
      match MemberAdds(d, es[0].name, es[0].data, longNames)
      case None => None
      case Some(found) => Continued(found.names, Reading(d, es[1..], found.longNames))
  }

  lemma {:induction false} LaidSlices(header: string, data: string, pad: string, rest: string)
    requires |header| == HEADER
    ensures var bytes := header + (data + (pad + rest));
      && bytes[..HEADER] == header && bytes[HEADER..HEADER + |data|] == data
      && bytes[HEADER + |data| + |pad|..] == rest
  {
    var bytes := header + (data + (pad + rest));
    assert bytes == header + data + pad + rest;
  }

  /** An archive is read member by member, whatever its members are. */
  lemma {:induction false} LaidReads(d: Decoder, es: seq<Entry>, tail: string, longNames: string)
    requires ReadsAscii(d) && (forall i :: 0 <= i < |es| ==> EntryOk(es[i])) && |tail| < HEADER
    ensures NamesFrom(d, Laid(es, tail), longNames) == Reading(d, es, longNames)
  {
    hide ReadHeader, MemberAdds, NamesFrom, HeaderOf;
    if |es| == 0 {
      Ends(d, tail, longNames, []);
      Continues(NamesFrom(d, tail, longNames));
    } else {
      var e, rest := es[0], Laid(es[1..], tail);
      var found := MemberAdds(d, e.name, e.data, longNames);
      HeaderReads(d, e);
      LaidSlices(HeaderOf(e), e.data, Pad(|e.data|), rest);
      if found.Some? {
        StepsOver(d, Laid(es, tail), longNames, Header(e.name, |e.data|), found.value);
        LaidReads(d, es[1..], tail, found.value.longNames);
      } else {
        Fails(d, Laid(es, tail), longNames);
      }
    }
  }

  // ----- Kinds of members --------------------------------------------------

  datatype Member =
    | GnuShort(name: string, data: string)
    | Plain(name: string, data: string)
    | GnuLong(k: nat, data: string)
    | BsdLong(name: string, zeros: nat, data: string)
    | Symbols(field: string, data: string)
    | Table(names: seq<string>)

  predicate NoChar(s: string, c: char) {
    forall i :: 0 <= i < |s| ==> s[i] != c
  }

  /** A name that fits its field. */
  predicate ShortNameOk(name: string) {
    0 < |name| <= 15 && IsAscii(name) && NoChar(name, '/')
  }

  /** Laid out as `#1/`, which begins a BSD name and gives no length. */
  predicate IsMistaken(m: Member) {
    m.GnuShort? && m.name == "#1"
  }

  predicate PlainNameOk(name: string) {
    0 < |name| <= 16 && IsAscii(name) && NoChar(name, '/') && Trimmed(name) && !IsSymbolTable(name)
  }

  predicate LongNameOk(name: string) {
    IsAscii(name) && NoChar(name, '\n') && NoChar(name, '\0') && !EndsWith(name, '/')
  }

  predicate BsdNameOk(name: string) {
    IsAscii(name) && !EndsWith(name, '\0') && !Starts(name, "__.SYMDEF")
  }

  function TableData(names: seq<string>): string {
    if |names| == 0 then [] else names[0] + (['/', '\n'] + TableData(names[1..]))
  }

  function IndexOfName(names: seq<string>, k: nat): nat
    requires k <= |names|
  {
    |TableData(names[..k])|
  }

  function Zeros(n: nat): (r: string)
    ensures |r| == n && IsAscii(r) && forall i :: 0 <= i < n ==> r[i] == '\0'
  {
    seq(n, i => '\0')
  }

  predicate MemberOk(m: Member, table: seq<string>) {
    match m
    case GnuShort(name, _) => ShortNameOk(name)
    case Plain(name, _) => PlainNameOk(name)
    case GnuLong(k, _) => k < |table| && LongNameOk(table[k])
    case BsdLong(name, _, _) => BsdNameOk(name)
    case Symbols(field, _) => IsSymbolTable(field)
    case Table(names) => true
  }

  function FieldOf(m: Member, table: seq<string>): string
    requires MemberOk(m, table)
  {
    match m
    case GnuShort(name, _) => name + ['/']
    case Plain(name, _) => name
    case GnuLong(k, _) => ['/'] + Recency.Decimal(IndexOfName(table, k))
    case BsdLong(name, zeros, _) => ['#', '1', '/'] + Recency.Decimal(|name| + zeros)
    case Symbols(field, _) => field
    case Table(_) => ['/', '/']
  }

  function DataOf(m: Member): string {
    match m
    case GnuShort(_, data) => data
    case Plain(_, data) => data
    case GnuLong(_, data) => data
    case BsdLong(name, zeros, data) => name + (Zeros(zeros) + data)
    case Symbols(_, data) => data
    case Table(names) => TableData(names)
  }

  /** The name a member adds, if it is no table. */
  function NameOf(m: Member, table: seq<string>): seq<string>
    requires MemberOk(m, table)
  {
    match m
    case GnuShort(name, _) => [name]
    case Plain(name, _) => [name]
    case GnuLong(k, _) => [table[k]]
    case BsdLong(name, _, _) => [name]
    case Symbols(_, _) => []
    case Table(_) => []
  }

  /** The names a reader should find. */
  function NamesOf(ms: seq<Member>, table: seq<string>): seq<string>
    requires MembersOk(ms, table)
  {
    if |ms| == 0 then [] else NameOf(ms[0], table) + NamesOf(ms[1..], TableAfter(ms[0], table))
  }

  function TableAfter(m: Member, table: seq<string>): seq<string> {
    if m.Table? then m.names else table
  }

  predicate MembersOk(ms: seq<Member>, table: seq<string>) {
    |ms| == 0 || (MemberOk(ms[0], table) && MembersOk(ms[1..], TableAfter(ms[0], table)))
  }

  function Entries(ms: seq<Member>, table: seq<string>, between: seq<string>): (r: seq<Entry>)
    requires MembersOk(ms, table) && |between| == |ms|
    ensures |r| == |ms|
  {
    if |ms| == 0 then []
    else [Entry(FieldOf(ms[0], table), between[0], DataOf(ms[0]))] + Entries(ms[1..], TableAfter(ms[0], table), between[1..])
  }

  // ----- Each kind reads back ----------------------------------------------

  lemma {:induction false} TrimsOne(name: string, c: char)
    requires !EndsWith(name, c)
    ensures TrimEndOf(name + [c], c) == name
  {
    assert (name + [c])[..|name|] == name;
  }

  lemma {:induction false} ShortReads(d: Decoder, name: string, data: string, longNames: string)
    requires ShortNameOk(name)
    ensures MemberAdds(d, name + ['/'], data, longNames) == if name == "#1" then None else Some(Found([name], longNames))
  {
    var field := name + ['/'];
    assert field[0] == name[0] && field[|name|] == '/';
    TrimsOne(name, '/');
    NotSlash(field);
    if name == "#1" {
      assert field == "#1/" && field[..3] == "#1/" && field[3..] == [];
      SymbolTablesBegin(field);
    } else {
      NotBsd(field);
      SymbolTablesBegin(field);
    }
  }

  lemma {:induction false} SymbolTablesBegin(field: string)
    requires |field| > 0 && (field[0] == '#' || field[|field| - 1] == '/') && field != "/" && field != "/SYM64/"
    ensures !IsSymbolTable(field)
  {
    assert "__.SYMDEF"[0] == '_' && "__.SYMDEF SORTED"[0] == '_';
    assert "__.SYMDEF"[8] == 'F' && "__.SYMDEF SORTED"[15] == 'D';
  }

  lemma {:induction false} NotBsd(field: string)
    requires |field| < 3 || field[0] != '#' || field[1] != '1' || field[2] != '/'
    ensures !Starts(field, "#1/")
  {
    if |field| >= 3 {
      assert field[..3][0] == field[0] && field[..3][1] == field[1] && field[..3][2] == field[2];
    }
    assert "#1/"[0] == '#' && "#1/"[1] == '1' && "#1/"[2] == '/';
  }

  /** What does not begin with a slash is none of the names that do. */
  lemma {:induction false} NotSlash(field: string)
    requires |field| > 0 && field[0] != '/'
    ensures !Starts(field, "/") && field != "//" && field != "/" && field != "/SYM64/"
  {
    assert field[..1][0] == field[0];
    assert "/"[0] == '/';
  }

  lemma {:induction false} PlainReads(d: Decoder, name: string, data: string, longNames: string)
    requires PlainNameOk(name)
    ensures MemberAdds(d, name, data, longNames) == Some(Found([name], longNames))
  {
    NotSlash(name);
    NotBsd(name);
    assert !EndsWith(name, '/');
  }

  lemma {:induction false} BsdReads(d: Decoder, name: string, zeros: nat, data: string, longNames: string)
    requires ReadsAscii(d) && BsdNameOk(name) && |name| + zeros <= Journal.U64_MAX
    ensures MemberAdds(d, ['#', '1', '/'] + Recency.Decimal(|name| + zeros), name + (Zeros(zeros) + data), longNames)
      == Some(Found([name], longNames))
  {
    var digits, n := Recency.Decimal(|name| + zeros), |name| + zeros;
    var field, whole := ['#', '1', '/'] + digits, name + (Zeros(zeros) + data);
    NotSlash(field);
    DecimalIsRead(n);
    assert field[3..] == digits && field[..3] == "#1/";
    assert whole[..n] == name + Zeros(zeros);
    assert IsAscii(name + Zeros(zeros));
    ZerosTrim(name, zeros);
    assert field[0] == '#';
    assert "__.SYMDEF"[0] == '_' && "__.SYMDEF SORTED"[0] == '_';
  }

  lemma {:induction false} ZerosTrim(name: string, zeros: nat)
    requires !EndsWith(name, '\0')
    ensures TrimEndOf(name + Zeros(zeros), '\0') == name
  {
    if zeros == 0 {
      assert name + Zeros(0) == name;
    } else {
      assert (name + Zeros(zeros))[..|name| + zeros - 1] == name + Zeros(zeros - 1);
      ZerosTrim(name, zeros - 1);
    }
  }

  lemma {:induction false} NameEndsAtTheFeed(name: string, rest: string)
    requires NoChar(name, '\n') && NoChar(name, '\0') && |rest| > 0 && rest[0] == '\n'
    ensures NameEnd(name + rest) == |name|
  {
    if |name| == 0 {
      assert name + rest == rest;
    } else {
      assert (name + rest)[1..] == name[1..] + rest;
      NameEndsAtTheFeed(name[1..], rest);
    }
  }

  /** The table from a name's index on is that name and the names after it. */
  lemma {:induction false} TableFrom(names: seq<string>, k: nat)
    requires k <= |names|
    ensures IndexOfName(names, k) <= |TableData(names)|
    ensures TableData(names)[IndexOfName(names, k)..] == TableData(names[k..])
  {
    if k == 0 {
      assert names[..0] == [] && names[0..] == names;
    } else {
      TableFrom(names[1..], k - 1);
      assert names[..k][1..] == names[1..][..k - 1] && names[1..][k - 1..] == names[k..];
      var line, rest := names[0] + ['/', '\n'], TableData(names[1..]);
      TableLine(names);
      TableLine(names[..k]);
      hide TableData;
      Dropped(line, rest, IndexOfName(names[1..], k - 1));
    }
  }

  lemma {:induction false} TableLine(names: seq<string>)
    requires |names| > 0
    ensures TableData(names) == (names[0] + ['/', '\n']) + TableData(names[1..])
  {
  }

  lemma {:induction false} Dropped<T>(a: seq<T>, b: seq<T>, i: nat)
    requires i <= |b|
    ensures (a + b)[|a| + i..] == b[i..]
  {
  }

  lemma {:induction false} LongReads(d: Decoder, table: seq<string>, k: nat, data: string)
    requires ReadsAscii(d) && k < |table| && LongNameOk(table[k]) && IndexOfName(table, k) <= Journal.U64_MAX
    ensures MemberAdds(d, ['/'] + Recency.Decimal(IndexOfName(table, k)), data, TableData(table))
      == Some(Found([table[k]], TableData(table)))
  {
    var n, name := IndexOfName(table, k), table[k];
    var digits := Recency.Decimal(n);
    var field := ['/'] + digits;
    assert field[1..] == digits && field[..1] == "/";
    LongFieldIsNoOther(field, digits, n);
    DecimalIsRead(n);
    TableFrom(table, k);
    LongNameReads(d, table, k);
  }

  lemma {:induction false} LongNameReads(d: Decoder, table: seq<string>, k: nat)
    requires ReadsAscii(d) && k < |table| && LongNameOk(table[k])
    ensures var rest := TableData(table[k..]); TrimEndOf(d.lossy(rest[..NameEnd(rest)]), '/') == table[k]
  {
    var name, rest := table[k], TableData(table[k..]);
    var more := ['\n'] + TableData(table[k..][1..]);
    assert rest == (name + ['/']) + more;
    NameEndsAtTheFeed(name + ['/'], more);
    assert rest[..|name| + 1] == name + ['/'];
    assert IsAscii(name + ['/']);
    TrimsOne(name, '/');
  }

  lemma {:induction false} LongFieldIsNoOther(field: string, digits: string, n: nat)
    requires digits == Recency.Decimal(n) && field == ['/'] + digits
    ensures field != "//" && !IsSymbolTable(field) && !Starts(field, "#1/")
  {
    assert |digits| > 0 && Journal.IsDigit(digits[0]) && field[1] == digits[0];
    assert "//"[1] == '/' && "/SYM64/"[1] == 'S' && "__.SYMDEF"[1] == '_' && "__.SYMDEF SORTED"[1] == '_';
    assert field[0] == '/';
    NotBsd(field);
  }

  lemma {:induction false} MemberReads(d: Decoder, m: Member, table: seq<string>)
    requires ReadsAscii(d) && MemberOk(m, table) && |DataOf(m)| <= Journal.U64_MAX
    requires m.GnuLong? ==> IndexOfName(table, m.k) <= Journal.U64_MAX
    ensures MemberAdds(d, FieldOf(m, table), DataOf(m), TableData(table))
      == if IsMistaken(m) then None else Some(Found(NameOf(m, table), TableData(TableAfter(m, table))))
  {
    hide MemberAdds;
    match m
    case GnuShort(name, data) => ShortReads(d, name, data, TableData(table));
    case Plain(name, data) => PlainReads(d, name, data, TableData(table));
    case GnuLong(k, data) => LongReads(d, table, k, data);
    case BsdLong(name, zeros, data) => BsdReads(d, name, zeros, data, TableData(table));
    case Symbols(field, data) => SymbolsRead(d, field, data, TableData(table));
    case Table(names) => TableReads(d, TableData(names), TableData(table));
  }

  lemma {:induction false} SymbolsRead(d: Decoder, field: string, data: string, longNames: string)
    requires IsSymbolTable(field)
    ensures MemberAdds(d, field, data, longNames) == Some(Found([], longNames))
  {
    assert "//"[1] == '/' && "/SYM64/"[1] == 'S' && "__.SYMDEF"[1] == '_' && "__.SYMDEF SORTED"[1] == '_';
  }

  lemma {:induction false} TableReads(d: Decoder, data: string, longNames: string)
    ensures MemberAdds(d, ['/', '/'], data, longNames) == Some(Found([], data))
  {
    assert ['/', '/'] == "//";
  }

  // ----- The whole archive -------------------------------------------------

  /** Every member's fields fit the header, and every index is a number. */
  predicate Fits(ms: seq<Member>, table: seq<string>, between: seq<string>)
    requires MembersOk(ms, table) && |between| == |ms|
  {
    |ms| == 0 || (
      && EntryOk(Entry(FieldOf(ms[0], table), between[0], DataOf(ms[0])))
      && (ms[0].GnuLong? ==> IndexOfName(table, ms[0].k) <= Journal.U64_MAX)
      && Fits(ms[1..], TableAfter(ms[0], table), between[1..]))
  }

  lemma {:induction false} EntriesAreOk(ms: seq<Member>, table: seq<string>, between: seq<string>)
    requires MembersOk(ms, table) && |between| == |ms| && Fits(ms, table, between)
    ensures forall i :: 0 <= i < |ms| ==> EntryOk(Entries(ms, table, between)[i])
  {
    if |ms| > 0 {
      hide EntryOk;
      EntriesAreOk(ms[1..], TableAfter(ms[0], table), between[1..]);
    }
  }

  predicate NoneMistaken(ms: seq<Member>) {
    forall i :: 0 <= i < |ms| ==> !IsMistaken(ms[i])
  }

  lemma {:induction false} MembersRead(d: Decoder, ms: seq<Member>, table: seq<string>, between: seq<string>)
    requires ReadsAscii(d) && MembersOk(ms, table) && |between| == |ms| && Fits(ms, table, between)
    ensures Reading(d, Entries(ms, table, between), TableData(table))
      == if NoneMistaken(ms) then Some(NamesOf(ms, table)) else None
  {
    if |ms| > 0 {
      hide MemberAdds, ReadsAscii;
      var es := Entries(ms, table, between);
      assert ms == [ms[0]] + ms[1..];
      assert NoneMistaken(ms) <==> !IsMistaken(ms[0]) && NoneMistaken(ms[1..]);
      MemberReads(d, ms[0], table);
      MembersRead(d, ms[1..], TableAfter(ms[0], table), between[1..]);
      assert es[1..] == Entries(ms[1..], TableAfter(ms[0], table), between[1..]);
    }
  }

  /** Reading an archive gives back exactly its members' names, in order, unless
      a GNU short name is `#1`; then it is refused. */
  lemma {:induction false} ReadingInvertsLayout(d: Decoder, ms: seq<Member>, between: seq<string>, tail: string)
    requires ReadsAscii(d) && MembersOk(ms, []) && |between| == |ms| && Fits(ms, [], between) && |tail| < HEADER
    ensures forall i :: 0 <= i < |ms| ==> EntryOk(Entries(ms, [], between)[i])
    ensures MemberNames(d, MAGIC + Laid(Entries(ms, [], between), tail)) == if NoneMistaken(ms) then Ok(NamesOf(ms, [])) else Err
  {
    EntriesAreOk(ms, [], between);
    var es := Entries(ms, [], between);
    MembersRead(d, ms, [], between);
    LaidReads(d, es, tail, []);
    hide NamesFrom, Laid;
    var bytes := MAGIC + Laid(es, tail);
    assert bytes[..|MAGIC|] == MAGIC && bytes[|MAGIC|..] == Laid(es, tail);
  }
}
