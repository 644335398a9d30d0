/**
 Member names of `ar` archives: GNU short and long names, BSD names, symbol
 tables that are passed over. A byte is modelled by the character with its
 code; what decodes bytes as text is a parameter.
 */
module Archive {
  import opened Results
  import opened DepInfo
  import opened LinkCommand
  import opened Replace
  import Journal

  const MAGIC := "!<arch>\n"
  const HEADER: nat := 60
  const HEADER_END := "`\n"

  /** Which byte strings are text, and the text any byte string is read as. */
  datatype Decoder = Decoder(valid: string -> bool, lossy: string -> string)

  function TrimEndOf(s: string, c: char): string {
    if EndsWith(s, c) then TrimEndOf(s[..|s| - 1], c) else s
  }

  /** Up to the first line feed or zero byte. */
  function NameEnd(s: string): (i: nat)
    ensures i <= |s|
  {
    if |s| == 0 || s[0] == '\n' || s[0] == '\0' then 0 else 1 + NameEnd(s[1..])
  }

  predicate IsSymbolTable(name: string) {
    name == "/" || name == "/SYM64/" || name == "__.SYMDEF" || name == "__.SYMDEF SORTED"
  }

  /** What one member adds: perhaps a name, perhaps a new long-name table. */
  datatype Found = Found(names: seq<string>, longNames: string)

  function BsdName(d: Decoder, length: string, data: string): Option<seq<string>> {
    var n := Journal.ParseU64(length);
    if n.None? || n.value > |data| then None else
      var name := TrimEndOf(d.lossy(data[..n.value]), '\0');
      Some(if Starts(name, "__.SYMDEF") then [] else [name])
  }

  function LongName(d: Decoder, index: string, longNames: string): Option<seq<string>> {
    var n := Journal.ParseU64(index);
    if n.None? || n.value > |longNames| then None else
      var rest := longNames[n.value..];
      Some([TrimEndOf(d.lossy(rest[..NameEnd(rest)]), '/')])
  }

  function With(names: Option<seq<string>>, longNames: string): Option<Found> {
    if names.Some? then Some(Found(names.value, longNames)) else None
  }

  function MemberAdds(d: Decoder, name: string, data: string, longNames: string): Option<Found> {
    if name == "//" then Some(Found([], data))
    else if IsSymbolTable(name) then Some(Found([], longNames))
    else if Starts(name, "#1/") then With(BsdName(d, name[3..], data), longNames)
    else if Starts(name, "/") then With(LongName(d, name[1..], longNames), longNames)
    else Some(Found([TrimEndOf(name, '/')], longNames))
  }

  /** A header's name and size, if it is one. */
  datatype Header = Header(name: string, size: nat)

  function ReadHeader(d: Decoder, header: string): Option<Header>
    requires |header| == HEADER
  {
    if header[58..60] != HEADER_END || !d.valid(header[..16]) || !d.valid(header[48..58]) then None else
      var size := Journal.ParseU64(TrimStart(TrimEnd(d.lossy(header[48..58]))));
      if size.None? then None else Some(Header(TrimEnd(d.lossy(header[..16])), size.value))
  }

  function NamesFrom(d: Decoder, bytes: string, longNames: string): Option<seq<string>>
    decreases |bytes|
  {
    if |bytes| < HEADER then Some([]) else
      match ReadHeader(d, bytes[..HEADER])
      case None => None
      case Some(h) =>
        if h.size > |bytes| - HEADER then None else
          match MemberAdds(d, h.name, bytes[HEADER..HEADER + h.size], longNames)
          case None => None
          case Some(found) =>
            var next := HEADER + h.size + h.size % 2;
            match NamesFrom(d, From(bytes, next), found.longNames)
            case None => None
            case Some(names) => Some(found.names + names)
  }

  function MemberNames(d: Decoder, bytes: string): Result<seq<string>> {
    if !Starts(bytes, MAGIC) then Err else
      match NamesFrom(d, bytes[|MAGIC|..], [])
      case None => Err
      case Some(names) => Ok(names)
  }

  // ----- As computed -------------------------------------------------------

  /** One member: what it adds, and where the next begins. */
  method ReadMember(d: Decoder, bytes: string, offset: nat, longNames: string) returns (found: Option<Found>, next: nat)
    requires offset + HEADER <= |bytes|
    ensures found.None? ==> NamesFrom(d, From(bytes, offset), longNames) == None
    ensures found.Some? ==>
      offset < next
      && NamesFrom(d, From(bytes, offset), longNames) == Continued(found.value.names, NamesFrom(d, From(bytes, next), found.value.longNames))
  {
    hide ReadHeader, MemberAdds, NamesFrom, Continued;
    ghost var rest := bytes[offset..];
    next := offset;
    var header := bytes[offset..offset + HEADER];
    assert header == rest[..HEADER];
    var h := ReadHeader(d, header);
    Fails(d, rest, longNames);
    var dataStart := offset + HEADER;
    if h.None? || h.value.size > |bytes| - dataStart {
      return None, next;
    }
    var dataEnd := dataStart + h.value.size;
    var data := bytes[dataStart..dataEnd];
    assert data == rest[HEADER..HEADER + h.value.size];
    found := MemberAdds(d, h.value.name, data, longNames);
    if found.Some? {
      StepsOver(d, rest, longNames, h.value, found.value);
      FromTwice(bytes, offset, HEADER + h.value.size + h.value.size % 2);
      next := dataEnd + h.value.size % 2;
    }
  }

  /** Reads any bytes: it ends, and never looks outside them. */
  method ReadMemberNames(d: Decoder, bytes: string) returns (r: Result<seq<string>>)
    ensures r == MemberNames(d, bytes)
  {
    hide NamesFrom, Continued;
    if !Starts(bytes, MAGIC) {
      return Err;
    }
    var names: seq<string> := [];
    var longNames: string := [];
    var offset := |MAGIC|;
    Continues(NamesFrom(d, From(bytes, offset), longNames));
    while offset + HEADER <= |bytes|
      invariant NamesFrom(d, From(bytes, |MAGIC|), []) == Continued(names, NamesFrom(d, From(bytes, offset), longNames))
      decreases |bytes| - offset
    {
      var found, next := ReadMember(d, bytes, offset, longNames);
      ContinuedNone(names);
      if found.None? {
        return Err;
      }
      ContinuesMore(names, found.value.names, NamesFrom(d, From(bytes, next), found.value.longNames));
      names := names + found.value.names;
      longNames := found.value.longNames;
      offset := next;
    }
    Ends(d, From(bytes, offset), longNames, names);
    r := Ok(names);
  }

  lemma {:induction false} ContinuedNone(front: seq<string>)
    ensures Continued(front, None) == None
  {
  }

  function From(bytes: string, offset: nat): string {
    if offset <= |bytes| then bytes[offset..] else []
  }

  lemma {:induction false} FromTwice(bytes: string, offset: nat, next: nat)
    ensures From(From(bytes, offset), next) == From(bytes, offset + next)
  {
    if offset + next <= |bytes| {
      assert bytes[offset..][next..] == bytes[offset + next..];
    }
  }

  lemma {:induction false} Ends(d: Decoder, bytes: string, longNames: string, names: seq<string>)
    requires |bytes| < HEADER
    ensures Continued(names, NamesFrom(d, bytes, longNames)) == Some(names)
  {
    assert names + [] == names;
  }

  /** Without a header, its data or its name there is no list. */
  lemma {:induction false} Fails(d: Decoder, bytes: string, longNames: string)
    requires |bytes| >= HEADER
    ensures var h := ReadHeader(d, bytes[..HEADER]);
      h.None? || h.value.size > |bytes| - HEADER || MemberAdds(d, h.value.name, bytes[HEADER..HEADER + h.value.size], longNames).None?
      ==> NamesFrom(d, bytes, longNames) == None
  {
  }

  function Continued(front: seq<string>, names: Option<seq<string>>): Option<seq<string>> {
    if names.Some? then Some(front + names.value) else None
  }

  lemma {:induction false} Continues(names: Option<seq<string>>)
    ensures Continued([], names) == names
  {
    if names.Some? {
      assert [] + names.value == names.value;
    }
  }

  lemma {:induction false} ContinuesMore(a: seq<string>, b: seq<string>, names: Option<seq<string>>)
    ensures Continued(a, Continued(b, names)) == Continued(a + b, names)
  {
    if names.Some? {
      assert a + (b + names.value) == a + b + names.value;
    }
  }

  lemma {:induction false} StepsOver(d: Decoder, bytes: string, longNames: string, h: Header, found: Found)
    requires |bytes| >= HEADER && ReadHeader(d, bytes[..HEADER]) == Some(h) && h.size <= |bytes| - HEADER
    requires MemberAdds(d, h.name, bytes[HEADER..HEADER + h.size], longNames) == Some(found)
    ensures NamesFrom(d, bytes, longNames)
      == Continued(found.names, NamesFrom(d, From(bytes, HEADER + h.size + h.size % 2), found.longNames))
  {
    hide ReadHeader, MemberAdds, From;
  }
}
