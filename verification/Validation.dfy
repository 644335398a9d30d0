/**
 What a compile read, recorded as a candidate, and when the candidate holds in
 the state a later compile finds. Digests stand for what they digest.
 */
module Validation {
  import opened Results
  import opened Replace
  import opened Normalizer

  datatype Digest = Digest(of: string)

  datatype FileInput = FileInput(path: string, digest: Digest)

  datatype EnvInput = EnvInput(name: string, value: Option<Digest>, normalized: bool)

  datatype Pin = Pin(name: string, value: string)

  datatype Candidate = Candidate(files: seq<FileInput>, hostFiles: seq<FileInput>, env: seq<EnvInput>)

  /** What a compile sees: files, which paths belong to another git checkout,
      the environment, and the directories of this checkout. */
  datatype World = World(
    files: map<string, Digest>,
    foreign: set<string>,
    env: map<string, string>,
    pins: seq<Pin>,
    width: Option<string>,
    bases: seq<Base>,
    rootBases: seq<Base>,
    workspace: string)

  const PIN_PREFIX := "@bellows:root:"
  const WIDTH_INPUT := "@bellows:diagnostic-width"
  const ANY_WIDTH := "*"

  // ----- Paths -------------------------------------------------------------

  const SHARED_ROOTS := ["$CHECKOUT", "$WORKSPACE", "$TARGET", "$PROFILE", "$CARGO_HOME", "$RUSTUP_HOME"]
  const PORTABLE_ROOTS := ["$CHECKOUT", "$WORKSPACE", "$PROFILE", "$TARGET", "$CARGO_HOME", "$RUSTUP_HOME", "$HOME"]
  const CARGO_ROOTS := ["$TARGET", "$PROFILE"]

  predicate StartsWithAny(text: string, roots: seq<string>) {
    exists i :: 0 <= i < |roots| && Starts(text, roots[i])
  }

  /** No per-checkout root covers the path. */
  predicate OutsideRoots(portable: string) {
    !StartsWithAny(portable, SHARED_ROOTS)
  }

  predicate IsSeparator(c: char) {
    c == '/' || c == '\\'
  }

  predicate UnderRoot(value: string, root: string) {
    Starts(value, root) && (|value| == |root| || IsSeparator(value[|root|]))
  }

  function TrimSeparators(s: string): string {
    if |s| > 0 && IsSeparator(s[0]) then TrimSeparators(s[1..]) else s
  }

  /** Segments between separators, none of them empty, `.` or `..`. */
  predicate SegmentsOk(s: string, current: string) {
    if |s| == 0 then current != [] && current != "." && current != ".."
    else if IsSeparator(s[0]) then current != [] && current != "." && current != ".." && SegmentsOk(s[1..], [])
    else SegmentsOk(s[1..], current + [s[0]])
  }

  /** The first root that covers the path, or how many roots there are. */
  function RootOf(value: string, roots: seq<string>): (i: nat)
    ensures i <= |roots| && (i < |roots| ==> UnderRoot(value, roots[i]))
  {
    if |roots| == 0 then 0
    else if UnderRoot(value, roots[0]) then 0
    else 1 + RootOf(value, roots[1..])
  }

  predicate PortableOk(value: string) {
    var i := RootOf(value, PORTABLE_ROOTS);
    && |value| <= 4096 && (forall k :: 0 <= k < |value| ==> value[k] != '\0')
    && i < |PORTABLE_ROOTS|
    && SegmentsOk(TrimSeparators(value[|PORTABLE_ROOTS[i]|..]), [])
  }

  function AbsolutePath(path: string, workspace: string): string {
    if |path| > 0 && path[0] == '/' then path else workspace + ['/'] + path
  }

  function Portable(w: World, path: string): string {
    Normalize(w.bases, path)
  }

  // ----- Recording ---------------------------------------------------------

  /** A file is recorded unless it is gone, changed while the compile ran, or
      belongs to another checkout. */
  predicate Recordable(w: World, changed: set<string>, path: string) {
    var portable := Portable(w, path);
    && !(OutsideRoots(portable) && path in w.foreign)
    && (StartsWithAny(portable, CARGO_ROOTS) || path !in changed)
    && path in w.files
  }

  predicate IsPortable(w: World, path: string) {
    PortableOk(Portable(w, path))
  }

  predicate HasPath(files: seq<FileInput>, path: string) {
    exists i :: 0 <= i < |files| && files[i].path == path
  }

  function Added(files: seq<FileInput>, f: FileInput): seq<FileInput> {
    if HasPath(files, f.path) then files else files + [f]
  }

  /** Portable inputs under their portable names, each once. */
  function PortableFiles(w: World, inputs: seq<string>): seq<FileInput> {
    if |inputs| == 0 then [] else
      var before, p := PortableFiles(w, inputs[..|inputs| - 1]), inputs[|inputs| - 1];
      if p in w.files && IsPortable(w, p) then Added(before, FileInput(Portable(w, p), w.files[p])) else before
  }

  function HostFiles(w: World, inputs: seq<string>): seq<FileInput> {
    if |inputs| == 0 then [] else
      var before, p := HostFiles(w, inputs[..|inputs| - 1]), inputs[|inputs| - 1];
      if p in w.files && !IsPortable(w, p) then Added(before, FileInput(p, w.files[p])) else before
  }

  predicate Occurring(text: string, part: string) {
    exists i :: 0 <= i <= |text| && FoundAt(text, part, i)
  }

  /** A value names a root that some output embeds. */
  predicate NamesLeaked(portable: string, leaked: set<string>) {
    exists t :: t in leaked && (Occurring(portable, t) || (t == "$TARGET" && Occurring(portable, "$PROFILE")))
  }

  function Variable(w: World, name: string): Option<string> {
    if name in w.env then Some(w.env[name]) else None
  }

  function Literal(name: string, value: Option<string>): EnvInput {
    EnvInput(name, if value.Some? then Some(Digest(value.value)) else None, false)
  }

  /** Compared in portable form when that differs and no output names the
      root; otherwise as it stands. */
  predicate ComparedPortably(w: World, leaked: set<string>, name: string) {
    name in w.env && Normalize(w.rootBases, w.env[name]) != w.env[name]
    && !NamesLeaked(Normalize(w.rootBases, w.env[name]), leaked)
  }

  function VariableInput(w: World, leaked: set<string>, name: string): EnvInput {
    if ComparedPortably(w, leaked, name) then EnvInput(name, Some(Digest(Normalize(w.rootBases, w.env[name]))), true)
    else Literal(name, Variable(w, name))
  }

  predicate Ends(text: string, part: string) {
    |part| <= |text| && text[|text| - |part|..] == part
  }

  predicate PinApplies(pin: Pin, leaked: set<string>) {
    exists t :: t in leaked && Ends(pin.name, t)
  }

  predicate HasName(env: seq<EnvInput>, name: string) {
    exists i :: 0 <= i < |env| && env[i].name == name
  }

  function AddedInput(env: seq<EnvInput>, input: EnvInput): seq<EnvInput> {
    if HasName(env, input.name) then env else env + [input]
  }

  function VariableInputs(w: World, leaked: set<string>, names: seq<string>): seq<EnvInput> {
    if |names| == 0 then []
    else AddedInput(VariableInputs(w, leaked, names[..|names| - 1]), VariableInput(w, leaked, names[|names| - 1]))
  }

  function PinInputs(pins: seq<Pin>, leaked: set<string>, env: seq<EnvInput>): seq<EnvInput> {
    if |pins| == 0 then env else
      var before, pin := PinInputs(pins[..|pins| - 1], leaked, env), pins[|pins| - 1];
      if PinApplies(pin, leaked) then AddedInput(before, Literal(pin.name, Some(pin.value))) else before
  }

  function WidthText(w: World): string {
    if w.width.Some? then w.width.value else "absent"
  }

  /** A compile that printed no diagnostics fits any width. */
  function WidthInput(w: World, rendered: bool): EnvInput {
    Literal(WIDTH_INPUT, Some(if rendered then WidthText(w) else ANY_WIDTH))
  }

  /** What the compile read, and what its outputs show of this checkout. */
  datatype Compile = Compile(inputs: seq<string>, changed: set<string>, variables: seq<string>, leaked: set<string>, rendered: bool)

  function CandidateOf(w: World, k: Compile): Candidate {
    Candidate(PortableFiles(w, k.inputs), HostFiles(w, k.inputs),
      AddedInput(PinInputs(w.pins, k.leaked, VariableInputs(w, k.leaked, k.variables)), WidthInput(w, k.rendered)))
  }

  function Capture(manifest: Candidate -> bool, w: World, k: Compile): Result<Candidate> {
    if (forall i :: 0 <= i < |k.inputs| ==> Recordable(w, k.changed, k.inputs[i])) && manifest(CandidateOf(w, k))
    then Ok(CandidateOf(w, k)) else Err
  }

  // ----- Validating --------------------------------------------------------

  function WidthOf(env: seq<EnvInput>): Option<EnvInput> {
    if |env| == 0 then None else if env[0].name == WIDTH_INPUT then Some(env[0]) else WidthOf(env[1..])
  }

  predicate WidthMatches(c: Candidate, v: World) {
    match WidthOf(c.env)
    case None => v.width.None?
    case Some(input) => input.value == Some(Digest(ANY_WIDTH)) || input.value == Some(Digest(WidthText(v)))
  }

  function PinValue(pins: seq<Pin>, name: string): Option<string> {
    if |pins| == 0 then None else if pins[0].name == name then Some(pins[0].value) else PinValue(pins[1..], name)
  }

  /** The input as it would be recorded now. */
  predicate InputMatches(input: EnvInput, v: World) {
    if input.name == WIDTH_INPUT then true
    else if Starts(input.name, PIN_PREFIX) then
      PinValue(v.pins, input.name).Some? && input.value == Some(Digest(PinValue(v.pins, input.name).value))
    else if input.normalized && input.name in v.env then input.value == Some(Digest(Normalize(v.rootBases, v.env[input.name])))
    else input.value == Literal(input.name, Variable(v, input.name)).value
  }

  function Located(v: World, portable: string): string {
    AbsolutePath(Localize(v.bases, portable), v.workspace)
  }

  predicate FileMatches(f: FileInput, v: World) {
    var path := Located(v, f.path);
    !(OutsideRoots(f.path) && path in v.foreign) && path in v.files && v.files[path] == f.digest
  }

  predicate HostFileMatches(f: FileInput, v: World) {
    f.path !in v.foreign && f.path in v.files && v.files[f.path] == f.digest
  }

  predicate Validates(manifest: Candidate -> bool, c: Candidate, v: World) {
    && manifest(c)
    && WidthMatches(c, v)
    && (forall i :: 0 <= i < |c.env| ==> InputMatches(c.env[i], v))
    && (forall i :: 0 <= i < |c.files| ==> FileMatches(c.files[i], v))
    && (forall i :: 0 <= i < |c.hostFiles| ==> HostFileMatches(c.hostFiles[i], v))
  }

  // ----- As computed -------------------------------------------------------

  method FindPath(files: seq<FileInput>, path: string) returns (found: bool)
    ensures found <==> HasPath(files, path)
  {
    for i := 0 to |files|
      invariant forall j :: 0 <= j < i ==> files[j].path != path
    {
      if files[i].path == path {
        return true;
      }
    }
    found := false;
  }

  method RecordFiles(w: World, changed: set<string>, inputs: seq<string>) returns (ok: bool, files: seq<FileInput>, hostFiles: seq<FileInput>)
    ensures ok <==> forall i :: 0 <= i < |inputs| ==> Recordable(w, changed, inputs[i])
    ensures ok ==> files == PortableFiles(w, inputs) && hostFiles == HostFiles(w, inputs)
  {
    hide Portable, PortableOk, OutsideRoots, StartsWithAny, HasPath;
    files, hostFiles := [], [];
    for i := 0 to |inputs|
      invariant forall j :: 0 <= j < i ==> Recordable(w, changed, inputs[j])
      invariant files == PortableFiles(w, inputs[..i]) && hostFiles == HostFiles(w, inputs[..i])
    {
      var absolute := inputs[i];
      assert inputs[..i + 1][..i] == inputs[..i];
      if !Recordable(w, changed, absolute) {
        return false, files, hostFiles;
      }
      var portable := Portable(w, absolute);
      if PortableOk(portable) {
        var known := FindPath(files, portable);
        if !known {
          files := files + [FileInput(portable, w.files[absolute])];
        }
      } else {
        var known := FindPath(hostFiles, absolute);
        if !known {
          hostFiles := hostFiles + [FileInput(absolute, w.files[absolute])];
        }
      }
    }
    assert inputs[..|inputs|] == inputs;
    ok := true;
  }

  method RecordEnv(w: World, k: Compile) returns (env: seq<EnvInput>)
    ensures env == AddedInput(PinInputs(w.pins, k.leaked, VariableInputs(w, k.leaked, k.variables)), WidthInput(w, k.rendered))
  {
    hide VariableInput, PinApplies, HasName;
    env := [];
    for i := 0 to |k.variables|
      invariant env == VariableInputs(w, k.leaked, k.variables[..i])
    {
      assert k.variables[..i + 1][..i] == k.variables[..i];
      env := AddedInput(env, VariableInput(w, k.leaked, k.variables[i]));
    }
    assert k.variables[..|k.variables|] == k.variables;
    ghost var named := env;
    for i := 0 to |w.pins|
      invariant env == PinInputs(w.pins[..i], k.leaked, named)
    {
      assert w.pins[..i + 1][..i] == w.pins[..i];
      if PinApplies(w.pins[i], k.leaked) {
        env := AddedInput(env, Literal(w.pins[i].name, Some(w.pins[i].value)));
      }
    }
    assert w.pins[..|w.pins|] == w.pins;
    env := AddedInput(env, WidthInput(w, k.rendered));
  }

  method CaptureOutputs(manifest: Candidate -> bool, w: World, k: Compile) returns (r: Result<Candidate>)
    ensures r == Capture(manifest, w, k)
  {
    var ok, files, hostFiles := RecordFiles(w, k.changed, k.inputs);
    if !ok {
      return Err;
    }
    var env := RecordEnv(w, k);
    var c := Candidate(files, hostFiles, env);
    r := if manifest(c) then Ok(c) else Err;
  }

  method ValidateCandidate(manifest: Candidate -> bool, c: Candidate, v: World) returns (ok: bool)
    ensures ok == Validates(manifest, c, v)
  {
    hide InputMatches, FileMatches, HostFileMatches, WidthMatches;
    if !manifest(c) || !WidthMatches(c, v) {
      return false;
    }
    for i := 0 to |c.env|
      invariant forall j :: 0 <= j < i ==> InputMatches(c.env[j], v)
    {
      if !InputMatches(c.env[i], v) {
        return false;
      }
    }
    for i := 0 to |c.files|
      invariant forall j :: 0 <= j < i ==> FileMatches(c.files[j], v)
    {
      if !FileMatches(c.files[i], v) {
        return false;
      }
    }
    for i := 0 to |c.hostFiles|
      invariant forall j :: 0 <= j < i ==> HostFileMatches(c.hostFiles[j], v)
    {
      if !HostFileMatches(c.hostFiles[i], v) {
        return false;
      }
    }
    ok := true;
  }
}
