/** A captured candidate holds exactly where everything it read is the same. */
module ValidationProofs {
  import opened Results
  import opened Replace
  import opened Normalizer
  import opened Validation

  // ----- Agreement ---------------------------------------------------------

  /** The later compile finds the input where its own directories put it. */
  predicate SameFile(w: World, v: World, path: string) {
    path in w.files
    && if IsPortable(w, path) then
         var there := Located(v, Portable(w, path));
         && !(OutsideRoots(Portable(w, path)) && there in v.foreign)
         && there in v.files && v.files[there] == w.files[path]
       else path !in v.foreign && path in v.files && v.files[path] == w.files[path]
  }

  predicate SameVariable(w: World, v: World, leaked: set<string>, name: string) {
    if ComparedPortably(w, leaked, name)
    then name in v.env && Normalize(v.rootBases, v.env[name]) == Normalize(w.rootBases, w.env[name])
    else Variable(v, name) == Variable(w, name)
  }

  predicate SamePin(v: World, pin: Pin) {
    PinValue(v.pins, pin.name) == Some(pin.value)
  }

  predicate SameWidth(w: World, v: World, rendered: bool) {
    rendered && WidthText(w) != ANY_WIDTH ==> WidthText(v) == WidthText(w)
  }

  /** An input stands for itself unless an earlier one has the same portable
      name: of two spellings of one path the first is recorded. */
  ghost predicate Stands(w: World, inputs: seq<string>, i: nat)
    requires i < |inputs|
  {
    IsPortable(w, inputs[i]) ==>
      forall j :: 0 <= j < i && IsPortable(w, inputs[j]) ==> Portable(w, inputs[j]) != Portable(w, inputs[i])
  }

  ghost predicate Agree(w: World, v: World, k: Compile) {
    && (forall i :: 0 <= i < |k.inputs| && Stands(w, k.inputs, i) ==> SameFile(w, v, k.inputs[i]))
    && (forall i :: 0 <= i < |k.variables| ==> SameVariable(w, v, k.leaked, k.variables[i]))
    && (forall i :: 0 <= i < |w.pins| && PinApplies(w.pins[i], k.leaked) ==> SamePin(v, w.pins[i]))
    && SameWidth(w, v, k.rendered)
  }

  // ----- What a compile may be assumed to look like -------------------------

  ghost predicate CompileOk(w: World, k: Compile) {
    && (forall i :: 0 <= i < |k.variables| ==> VariableNameOk(k.variables[i]))
    && (forall i :: 0 <= i < |w.pins| ==> PinNameOk(w.pins[i].name))
    && (forall i, j :: 0 <= i < j < |w.pins| ==> w.pins[i].name != w.pins[j].name)
  }

  predicate VariableNameOk(name: string) {
    !Starts(name, PIN_PREFIX) && name != WIDTH_INPUT
  }

  predicate PinNameOk(name: string) {
    Starts(name, PIN_PREFIX) && name != WIDTH_INPUT
  }

  // ----- The files ---------------------------------------------------------

  predicate IsPortableFile(w: World, path: string, f: FileInput) {
    path in w.files && IsPortable(w, path) && f == FileInput(Portable(w, path), w.files[path])
  }

  predicate IsHostFile(w: World, path: string, f: FileInput) {
    path in w.files && !IsPortable(w, path) && f == FileInput(path, w.files[path])
  }

  lemma {:induction false} AddedHas(files: seq<FileInput>, f: FileInput)
    ensures forall g :: g in files ==> g in Added(files, f)
    ensures forall g :: g in Added(files, f) ==> g in files || g == f
    ensures HasPath(files, f.path) || f in Added(files, f)
  {
  }

  ghost predicate AllThere(w: World, inputs: seq<string>) {
    forall i :: 0 <= i < |inputs| ==> inputs[i] in w.files
  }

  lemma {:induction false} StandsInFront(w: World, inputs: seq<string>, i: nat, n: nat)
    requires i < n <= |inputs|
    ensures Stands(w, inputs[..n], i) <==> Stands(w, inputs, i)
  {
    hide IsPortable, Portable;
    assert forall j :: 0 <= j < n ==> inputs[..n][j] == inputs[j];
  }

  lemma {:induction false} NamedAlready(w: World, inputs: seq<string>, j: nat)
    requires j < |inputs| && inputs[j] in w.files && IsPortable(w, inputs[j])
    ensures HasPath(PortableFiles(w, inputs), Portable(w, inputs[j]))
  {
    hide IsPortable, Portable;
    var n := |inputs| - 1;
    var before, p := PortableFiles(w, inputs[..n]), inputs[n];
    if j < n {
      NamedAlready(w, inputs[..n], j);
      if p in w.files && IsPortable(w, p) {
        NamedAfterAdding(before, FileInput(Portable(w, p), w.files[p]), Portable(w, inputs[j]));
      }
    } else {
      NamedAfterAdding(before, FileInput(Portable(w, p), w.files[p]), Portable(w, p));
    }
  }

  lemma {:induction false} NamedAfterAdding(files: seq<FileInput>, f: FileInput, path: string)
    requires HasPath(files, path) || path == f.path
    ensures HasPath(Added(files, f), path)
  {
    if i :| 0 <= i < |files| && files[i].path == path {
      assert Added(files, f)[i].path == path;
    } else if !HasPath(files, f.path) {
      assert (files + [f])[|files|] == f;
    }
  }

  /** What is recorded comes from an input that stands for itself. */
  lemma {:induction false} PortableFilesCome(w: World, inputs: seq<string>, f: FileInput) returns (i: nat)
    requires AllThere(w, inputs) && f in PortableFiles(w, inputs)
    ensures i < |inputs| && Stands(w, inputs, i) && IsPortableFile(w, inputs[i], f)
  {
    hide IsPortable, Portable, Added, HasPath;
    var n := |inputs| - 1;
    var front, p := inputs[..n], inputs[n];
    var before, g := PortableFiles(w, front), FileInput(Portable(w, p), w.files[p]);
    AddedHas(before, g);
    if f in before {
      i := PortableFilesCome(w, front, f);
      StandsInFront(w, inputs, i, n);
    } else {
      i := n;
      AddedNew(before, g, f);
      forall j | 0 <= j < n && IsPortable(w, inputs[j])
        ensures Portable(w, inputs[j]) != Portable(w, p)
      {
        NamedAlready(w, front, j);
      }
    }
  }

  lemma {:induction false} AddedNew(files: seq<FileInput>, g: FileInput, f: FileInput)
    requires f in Added(files, g) && f !in files
    ensures !HasPath(files, g.path) && f == g
  {
  }

  lemma {:induction false} PortableFilesHave(w: World, inputs: seq<string>, i: nat)
    requires AllThere(w, inputs) && i < |inputs| && Stands(w, inputs, i) && IsPortable(w, inputs[i])
    ensures FileInput(Portable(w, inputs[i]), w.files[inputs[i]]) in PortableFiles(w, inputs)
  {
    hide IsPortable, Portable, Added, HasPath;
    var n := |inputs| - 1;
    var front, p := inputs[..n], inputs[n];
    var before, f := PortableFiles(w, front), FileInput(Portable(w, inputs[i]), w.files[inputs[i]]);
    if i < n {
      StandsInFront(w, inputs, i, n);
      PortableFilesHave(w, front, i);
      AddedHas(before, FileInput(Portable(w, p), w.files[p]));
    } else {
      AddedHas(before, f);
      if HasPath(before, f.path) {
        var k := SomeWithPath(before, f.path);
        var j := PortableFilesCome(w, front, before[k]);
      }
    }
  }

  lemma {:induction false} SomeWithPath(files: seq<FileInput>, path: string) returns (k: nat)
    requires HasPath(files, path)
    ensures k < |files| && files[k].path == path
  {
    k :| 0 <= k < |files| && files[k].path == path;
  }

  lemma {:induction false} HostFilesCome(w: World, inputs: seq<string>, f: FileInput) returns (path: string)
    requires f in HostFiles(w, inputs)
    ensures path in inputs && IsHostFile(w, path, f)
  {
    hide IsPortable, Added;
    var front, p := inputs[..|inputs| - 1], inputs[|inputs| - 1];
    var g := FileInput(p, if p in w.files then w.files[p] else Digest([]));
    AddedHas(HostFiles(w, front), g);
    if f in HostFiles(w, front) {
      path := HostFilesCome(w, front, f);
    } else {
      path := p;
    }
  }

  lemma {:induction false} HostFilesHave(w: World, inputs: seq<string>, path: string)
    requires path in inputs && path in w.files && !IsPortable(w, path)
    ensures FileInput(path, w.files[path]) in HostFiles(w, inputs)
  {
    hide IsPortable, Added, HasPath;
    var front, p := inputs[..|inputs| - 1], inputs[|inputs| - 1];
    var before, f := HostFiles(w, front), FileInput(path, w.files[path]);
    assert inputs == front + [p];
    if path in front {
      HostFilesHave(w, front, path);
      if p in w.files && !IsPortable(w, p) {
        AddedHas(before, FileInput(p, w.files[p]));
      }
    } else {
      AddedHas(before, f);
      if HasPath(before, path) {
        HostPathKnown(w, front, path);
      }
    }
  }

  lemma {:induction false} HostPathKnown(w: World, front: seq<string>, path: string)
    requires path in w.files && HasPath(HostFiles(w, front), path)
    ensures FileInput(path, w.files[path]) in HostFiles(w, front)
  {
    var fs := HostFiles(w, front);
    var i :| 0 <= i < |fs| && fs[i].path == path;
    var other := HostFilesCome(w, front, fs[i]);
  }

  ghost predicate FilesMatch(w: World, v: World, k: Compile) {
    && (forall f :: f in PortableFiles(w, k.inputs) ==> FileMatches(f, v))
    && (forall f :: f in HostFiles(w, k.inputs) ==> HostFileMatches(f, v))
  }

  ghost predicate FilesSame(w: World, v: World, inputs: seq<string>) {
    forall i :: 0 <= i < |inputs| && Stands(w, inputs, i) ==> SameFile(w, v, inputs[i])
  }

  lemma {:induction false} FilesAgree(w: World, v: World, k: Compile)
    requires AllThere(w, k.inputs)
    ensures FilesMatch(w, v, k) <==> FilesSame(w, v, k.inputs)
  {
    hide PortableFiles, HostFiles, Portable, IsPortable, OutsideRoots, Located, Stands;
    if FilesMatch(w, v, k) {
      forall i | 0 <= i < |k.inputs| && Stands(w, k.inputs, i)
        ensures SameFile(w, v, k.inputs[i])
      {
        var p := k.inputs[i];
        if IsPortable(w, p) {
          PortableFilesHave(w, k.inputs, i);
          assert FileMatches(FileInput(Portable(w, p), w.files[p]), v);
        } else {
          HostFilesHave(w, k.inputs, p);
          assert HostFileMatches(FileInput(p, w.files[p]), v);
        }
      }
    }
    if FilesSame(w, v, k.inputs) {
      forall f | f in PortableFiles(w, k.inputs)
        ensures FileMatches(f, v)
      {
        var i := PortableFilesCome(w, k.inputs, f);
        assert SameFile(w, v, k.inputs[i]);
      }
      forall f | f in HostFiles(w, k.inputs)
        ensures HostFileMatches(f, v)
      {
        var p := HostFilesCome(w, k.inputs, f);
        var i :| 0 <= i < |k.inputs| && k.inputs[i] == p;
        HostStands(w, k.inputs, i);
        assert SameFile(w, v, p);
      }
    }
  }

  lemma {:induction false} HostStands(w: World, inputs: seq<string>, i: nat)
    requires i < |inputs| && !IsPortable(w, inputs[i])
    ensures Stands(w, inputs, i)
  {
  }

  // ----- The environment ---------------------------------------------------

  /** The inputs that are recorded, one for each name. */
  ghost predicate Recorded(w: World, k: Compile, x: EnvInput) {
    || (exists n :: n in k.variables && x == VariableInput(w, k.leaked, n))
    || (exists p :: p in w.pins && PinApplies(p, k.leaked) && x == Literal(p.name, Some(p.value)))
    || x == WidthInput(w, k.rendered)
  }

  lemma {:induction false} NamesDiffer()
    ensures !Starts(WIDTH_INPUT, PIN_PREFIX)
  {
    assert WIDTH_INPUT[..|PIN_PREFIX|][9] == 'd' && PIN_PREFIX[9] == 'r';
  }

  lemma {:induction false} OneForEachName(w: World, k: Compile, x: EnvInput, y: EnvInput)
    requires CompileOk(w, k) && Recorded(w, k, x) && Recorded(w, k, y) && x.name == y.name
    ensures x == y
  {
    hide ComparedPortably, PinApplies, Starts;
    NamesDiffer();
    forall n | n in k.variables
      ensures VariableNameOk(n)
    {
    }
    forall p, q | p in w.pins && q in w.pins && p.name == q.name
      ensures p == q && PinNameOk(p.name)
    {
      var i :| 0 <= i < |w.pins| && w.pins[i] == p;
      var j :| 0 <= j < |w.pins| && w.pins[j] == q;
    }
  }

  lemma {:induction false} AddedInputHas(env: seq<EnvInput>, x: EnvInput)
    ensures forall y :: y in env ==> y in AddedInput(env, x)
    ensures forall y :: y in AddedInput(env, x) ==> y in env || y == x
    ensures HasName(AddedInput(env, x), x.name)
  {
    if !HasName(env, x.name) {
      assert (env + [x])[|env|] == x;
    }
  }

  lemma {:induction false} NamedStays(env: seq<EnvInput>, more: seq<EnvInput>, name: string)
    requires HasName(env, name) && forall y :: y in env ==> y in more
    ensures HasName(more, name)
  {
    var i :| 0 <= i < |env| && env[i].name == name;
    assert env[i] in more;
    var j :| 0 <= j < |more| && more[j] == env[i];
  }

  lemma {:induction false} VariablesRecorded(w: World, k: Compile, names: seq<string>)
    requires forall n :: n in names ==> n in k.variables
    ensures forall x :: x in VariableInputs(w, k.leaked, names) ==> Recorded(w, k, x)
    ensures forall n :: n in names ==> HasName(VariableInputs(w, k.leaked, names), n)
  {
    hide VariableInput, AddedInput, HasName;
    if |names| > 0 {
      var front, last := names[..|names| - 1], names[|names| - 1];
      assert names == front + [last];
      VariablesRecorded(w, k, front);
      var before, x := VariableInputs(w, k.leaked, front), VariableInput(w, k.leaked, last);
      AddedInputHas(before, x);
      VariableHasItsName(w, k.leaked, last);
      forall n | n in front
        ensures HasName(AddedInput(before, x), n)
      {
        NamedStays(before, AddedInput(before, x), n);
      }
    }
  }

  lemma {:induction false} VariableHasItsName(w: World, leaked: set<string>, name: string)
    ensures VariableInput(w, leaked, name).name == name
  {
  }

  lemma {:induction false} PinsRecorded(w: World, k: Compile, pins: seq<Pin>, env: seq<EnvInput>)
    requires (forall p :: p in pins ==> p in w.pins) && forall x :: x in env ==> Recorded(w, k, x)
    ensures forall x :: x in PinInputs(pins, k.leaked, env) ==> Recorded(w, k, x)
    ensures forall x :: x in env ==> x in PinInputs(pins, k.leaked, env)
    ensures forall p :: p in pins && PinApplies(p, k.leaked) ==> HasName(PinInputs(pins, k.leaked, env), p.name)
  {
    hide PinApplies, AddedInput, HasName;
    if |pins| > 0 {
      var front, last := pins[..|pins| - 1], pins[|pins| - 1];
      assert pins == front + [last];
      PinsRecorded(w, k, front, env);
      var before, x := PinInputs(front, k.leaked, env), Literal(last.name, Some(last.value));
      AddedInputHas(before, x);
      forall p | p in front && PinApplies(p, k.leaked)
        ensures HasName(PinInputs(pins, k.leaked, env), p.name)
      {
        NamedStays(before, PinInputs(pins, k.leaked, env), p.name);
      }
    }
  }

  /** A candidate's environment is exactly what there was to record. */
  lemma {:induction false} EnvironmentIsRecorded(w: World, k: Compile, x: EnvInput)
    requires CompileOk(w, k)
    ensures x in CandidateOf(w, k).env <==> Recorded(w, k, x)
  {
    hide VariableInput, PinApplies, AddedInput, HasName, CompileOk, PortableFiles, HostFiles;
    var named := VariableInputs(w, k.leaked, k.variables);
    VariablesRecorded(w, k, k.variables);
    PinsRecorded(w, k, w.pins, named);
    var pinned := PinInputs(w.pins, k.leaked, named);
    var width := WidthInput(w, k.rendered);
    AddedInputHas(pinned, width);
    var env := CandidateOf(w, k).env;
    assert env == AddedInput(pinned, width);
    if Recorded(w, k, x) {
      EveryNameIsThere(w, k, named, pinned, env, x);
      HasItByName(w, k, env, x);
    }
  }

  lemma {:induction false} EveryNameIsThere(w: World, k: Compile, named: seq<EnvInput>, pinned: seq<EnvInput>, env: seq<EnvInput>, x: EnvInput)
    requires Recorded(w, k, x)
    requires forall n :: n in k.variables ==> HasName(named, n)
    requires forall p :: p in w.pins && PinApplies(p, k.leaked) ==> HasName(pinned, p.name)
    requires (forall y :: y in named ==> y in pinned) && (forall y :: y in pinned ==> y in env)
    requires HasName(env, WidthInput(w, k.rendered).name)
    ensures HasName(env, x.name)
  {
    hide VariableInput, PinApplies, HasName;
    if n :| n in k.variables && x == VariableInput(w, k.leaked, n) {
      VariableHasItsName(w, k.leaked, n);
      NamedStays(named, env, n);
    } else if p :| p in w.pins && PinApplies(p, k.leaked) && x == Literal(p.name, Some(p.value)) {
      NamedStays(pinned, env, p.name);
    }
  }

  lemma {:induction false} HasItByName(w: World, k: Compile, env: seq<EnvInput>, x: EnvInput)
    requires CompileOk(w, k) && Recorded(w, k, x) && HasName(env, x.name) && forall y :: y in env ==> Recorded(w, k, y)
    ensures x in env
  {
    var i :| 0 <= i < |env| && env[i].name == x.name;
    assert env[i] in env;
    OneForEachName(w, k, x, env[i]);
  }

  lemma {:induction false} WidthOfIs(env: seq<EnvInput>, width: EnvInput)
    requires width in env && width.name == WIDTH_INPUT && forall x :: x in env && x.name == WIDTH_INPUT ==> x == width
    ensures WidthOf(env) == Some(width)
  {
    if env[0].name != WIDTH_INPUT {
      assert width in env[1..];
      WidthOfIs(env[1..], width);
    }
  }

  lemma {:induction false} WidthAgrees(w: World, v: World, k: Compile)
    requires CompileOk(w, k)
    ensures WidthMatches(CandidateOf(w, k), v) <==> SameWidth(w, v, k.rendered)
  {
    hide CompileOk, CandidateOf, Recorded;
    var env, width := CandidateOf(w, k).env, WidthInput(w, k.rendered);
    WidthIsRecorded(w, k);
    EnvironmentIsRecorded(w, k, width);
    forall x | x in env && x.name == WIDTH_INPUT
      ensures x == width
    {
      EnvironmentIsRecorded(w, k, x);
      OneForEachName(w, k, x, width);
    }
    WidthOfIs(env, width);
  }

  lemma {:induction false} WidthIsRecorded(w: World, k: Compile)
    ensures Recorded(w, k, WidthInput(w, k.rendered))
  {
  }

  lemma {:induction false} VariableAgrees(w: World, v: World, leaked: set<string>, name: string)
    requires VariableNameOk(name)
    ensures InputMatches(VariableInput(w, leaked, name), v) <==> SameVariable(w, v, leaked, name)
  {
    hide Normalize, NamesLeaked, Starts;
  }

  lemma {:induction false} PinAgrees(v: World, pin: Pin)
    requires PinNameOk(pin.name)
    ensures InputMatches(Literal(pin.name, Some(pin.value)), v) <==> SamePin(v, pin)
  {
  }

  ghost predicate EnvironmentSame(w: World, v: World, k: Compile) {
    && (forall n :: n in k.variables ==> SameVariable(w, v, k.leaked, n))
    && (forall p :: p in w.pins && PinApplies(p, k.leaked) ==> SamePin(v, p))
  }

  lemma {:induction false} EnvironmentAgrees(w: World, v: World, k: Compile)
    requires CompileOk(w, k)
    ensures (forall x :: x in CandidateOf(w, k).env ==> InputMatches(x, v)) <==> EnvironmentSame(w, v, k)
  {
    hide CandidateOf, VariableInput, SameVariable, InputMatches, PinApplies, SamePin;
    forall n | n in k.variables
      ensures InputMatches(VariableInput(w, k.leaked, n), v) <==> SameVariable(w, v, k.leaked, n)
      ensures VariableInput(w, k.leaked, n) in CandidateOf(w, k).env
    {
      VariableAgrees(w, v, k.leaked, n);
      EnvironmentIsRecorded(w, k, VariableInput(w, k.leaked, n));
    }
    forall p | p in w.pins
      ensures InputMatches(Literal(p.name, Some(p.value)), v) <==> SamePin(v, p)
      ensures PinApplies(p, k.leaked) ==> Literal(p.name, Some(p.value)) in CandidateOf(w, k).env
    {
      PinAgrees(v, p);
      EnvironmentIsRecorded(w, k, Literal(p.name, Some(p.value)));
    }
    WidthAlwaysMatches(w, v, k);
    forall x | x in CandidateOf(w, k).env
      ensures Recorded(w, k, x)
    {
      EnvironmentIsRecorded(w, k, x);
    }
  }

  lemma {:induction false} WidthAlwaysMatches(w: World, v: World, k: Compile)
    ensures InputMatches(WidthInput(w, k.rendered), v)
  {
  }

  // ----- The main results --------------------------------------------------

  /** A captured candidate validates in another state exactly when that state
      agrees on every file, variable and pin that was recorded, and on the
      width if it matters. */
  lemma {:induction false} ValidatesExactlyWhereItAgrees(manifest: Candidate -> bool, w: World, v: World, k: Compile)
    requires CompileOk(w, k) && Capture(manifest, w, k).Ok?
    ensures Validates(manifest, Capture(manifest, w, k).value, v) <==> Agree(w, v, k)
  {
    hide CandidateOf, SameFile, SameVariable, SamePin, SameWidth, WidthMatches, InputMatches, FileMatches, HostFileMatches, PinApplies;
    var c := CandidateOf(w, k);
    InputsAreThere(w, k);
    FilesAgree(w, v, k);
    EnvironmentAgrees(w, v, k);
    WidthAgrees(w, v, k);
    CandidateHas(w, k);
    AsMembers(w, v, k, c);
  }

  lemma {:induction false} InputsAreThere(w: World, k: Compile)
    requires forall i :: 0 <= i < |k.inputs| ==> Recordable(w, k.changed, k.inputs[i])
    ensures AllThere(w, k.inputs)
  {
    hide OutsideRoots, StartsWithAny, Portable;
  }

  lemma {:induction false} CandidateHas(w: World, k: Compile)
    ensures CandidateOf(w, k).files == PortableFiles(w, k.inputs) && CandidateOf(w, k).hostFiles == HostFiles(w, k.inputs)
  {
  }

  /** Every position is the same as every member. */
  lemma {:induction false} AsMembers(w: World, v: World, k: Compile, c: Candidate)
    requires c.files == PortableFiles(w, k.inputs) && c.hostFiles == HostFiles(w, k.inputs)
    ensures FilesMatch(w, v, k) <==>
      (forall i :: 0 <= i < |c.files| ==> FileMatches(c.files[i], v))
      && (forall i :: 0 <= i < |c.hostFiles| ==> HostFileMatches(c.hostFiles[i], v))
    ensures (forall x :: x in c.env ==> InputMatches(x, v)) <==> forall i :: 0 <= i < |c.env| ==> InputMatches(c.env[i], v)
  {
    hide PortableFiles, HostFiles, FileMatches, HostFileMatches, InputMatches;
  }

  // ----- Where it was captured ---------------------------------------------

  /** An absolute path that names no token. */
  ghost predicate PathOk(w: World, path: string) {
    |path| > 0 && path[0] == '/' && !OccursSome(w.bases, path)
  }

  ghost predicate InputsOk(w: World, inputs: seq<string>) {
    BasesOk(w.bases) && forall i :: 0 <= i < |inputs| ==> PathOk(w, inputs[i])
  }

  /** A recorded path is found again, in the spelling chosen for its directory. */
  lemma {:induction false} PathComesBack(w: World, path: string)
    requires BasesOk(w.bases) && PathOk(w, path)
    ensures Localize(w.bases, Portable(w, path)) == Located(w, Portable(w, path)) == Respelled(w.bases, path)
  {
    hide Localize, Normalize, Respelled;
    RoundTripExactly(w.bases, path);
    RespelledIsAbsolute(w.bases, path);
  }

  /** What validation at home asks of one input. */
  ghost predicate HoldsAtHome(w: World, path: string)
    requires path in w.files
  {
    if IsPortable(w, path) then
      var there := Respelled(w.bases, path);
      && !(OutsideRoots(Portable(w, path)) && there in w.foreign)
      && there in w.files && w.files[there] == w.files[path]
    else path !in w.foreign
  }

  /** The two spellings of a path lead to one file. */
  ghost predicate SpelledAlike(w: World, path: string) {
    var there := Respelled(w.bases, path);
    && (path in w.files ==> there in w.files && w.files[there] == w.files[path])
    && (there in w.foreign <==> path in w.foreign)
  }

  ghost predicate AllAlike(w: World, inputs: seq<string>) {
    forall i :: 0 <= i < |inputs| ==> SpelledAlike(w, inputs[i])
  }

  predicate NoHostIsForeign(w: World, inputs: seq<string>) {
    forall i :: 0 <= i < |inputs| && !IsPortable(w, inputs[i]) ==> inputs[i] !in w.foreign
  }

  lemma {:induction false} OneSpellingIsAlike(w: World, path: string)
    requires OneSpelling(w.bases)
    ensures SpelledAlike(w, path)
  {
    FoundOk(w.bases, path, |w.bases|);
  }

  /** Where it was captured a candidate validates if each input's chosen
      spelling leads to the same file. When spellings of one directory do lead
      to one directory, it validates unless it holds a host file of another
      checkout: one that a root's name covers as text, but that no root contains. */
  lemma {:induction false} ValidatesAtHome(manifest: Candidate -> bool, w: World, k: Compile)
    requires CompileOk(w, k) && InputsOk(w, k.inputs) && Capture(manifest, w, k).Ok?
    ensures AllThere(w, k.inputs)
    ensures Validates(manifest, Capture(manifest, w, k).value, w)
      <==> forall i :: 0 <= i < |k.inputs| && Stands(w, k.inputs, i) ==> HoldsAtHome(w, k.inputs[i])
    ensures AllAlike(w, k.inputs) ==> (Validates(manifest, Capture(manifest, w, k).value, w) <==> NoHostIsForeign(w, k.inputs))
  {
    InputsAreThere(w, k);
    ValidatesExactlyWhereItAgrees(manifest, w, w, k);
    hide CandidateOf, Validates, Portable, IsPortable, OutsideRoots, StartsWithAny, BasesOk, ComparedPortably, Respelled, Stands, PathOk, Located, SameFile, HoldsAtHome, SpelledAlike;
    forall i | 0 <= i < |k.inputs|
      ensures SameFile(w, w, k.inputs[i]) <==> HoldsAtHome(w, k.inputs[i])
      ensures SpelledAlike(w, k.inputs[i]) ==> (HoldsAtHome(w, k.inputs[i]) <==> (IsPortable(w, k.inputs[i]) || k.inputs[i] !in w.foreign))
      ensures !IsPortable(w, k.inputs[i]) ==> Stands(w, k.inputs, i)
    {
      assert Recordable(w, k.changed, k.inputs[i]) && PathOk(w, k.inputs[i]);
      HomeInput(w, k.changed, k.inputs[i]);
      if !IsPortable(w, k.inputs[i]) {
        HostStands(w, k.inputs, i);
      }
    }
    forall i | 0 <= i < |w.pins|
      ensures SamePin(w, w.pins[i])
    {
      OwnPin(w.pins, i);
    }
    forall i | 0 <= i < |k.variables|
      ensures SameVariable(w, w, k.leaked, k.variables[i])
    {
      OwnVariable(w, k.leaked, k.variables[i]);
    }
  }

  lemma {:induction false} HomeInput(w: World, changed: set<string>, path: string)
    requires BasesOk(w.bases) && PathOk(w, path) && Recordable(w, changed, path)
    ensures SameFile(w, w, path) <==> HoldsAtHome(w, path)
    ensures SpelledAlike(w, path) ==> (HoldsAtHome(w, path) <==> (IsPortable(w, path) || path !in w.foreign))
  {
    hide Respelled, Portable, OutsideRoots, StartsWithAny, PortableOk, BasesOk, Localize;
    PathComesBack(w, path);
  }

  lemma {:induction false} OwnVariable(w: World, leaked: set<string>, name: string)
    ensures SameVariable(w, w, leaked, name)
  {
  }

  lemma {:induction false} OwnPin(pins: seq<Pin>, i: nat)
    requires i < |pins| && forall a, b :: 0 <= a < b < |pins| ==> pins[a].name != pins[b].name
    ensures PinValue(pins, pins[i].name) == Some(pins[i].value)
  {
    if i > 0 {
      assert pins[i] == pins[1..][i - 1];
      OwnPin(pins[1..], i - 1);
    }
  }

  // ----- A record that never holds -----------------------------------------

  const NEIGHBOUR := "/work" + "-old/x"

  /** A file of the checkout `/work-old`, read by a compile in `/work`. */
  ghost function NeighbourWorld(): World {
    World(map[NEIGHBOUR := Digest("x")], {NEIGHBOUR}, map[], [], None, [Base("$WORKSPACE", "/work")], [], "/work")
  }

  const NEIGHBOUR_READ := Compile([NEIGHBOUR], {}, [], {}, false)

  lemma {:induction false} NeighbourIsRenamed()
    ensures Normalize([Base("$WORKSPACE", "/work")], NEIGHBOUR) == "$WORKSPACE" + "-old/x"
  {
    hide Replaced;
    var bases, root, token := [Base("$WORKSPACE", "/work")], "/work", "$WORKSPACE";
    assert Normalizations(bases)[..0] == [] && Normalizations(bases)[0] == Rule(root, token);
    ReplacesHead(root, "-old/x", token);
    assert "-old" + "/x" == "-old/x" && ['/'] + "x" == "/x" && "x" + [] == "x";
    CopiesBlock("-old", "/x", root, token);
    CopiesHead('/', "x", root, token);
    CopiesBlock("x", [], root, token);
    NothingLeft(root, token);
    assert Replaced("/x", root, token) == "/x";
    assert Replaced("-old/x", root, token) == "-old/x";
    var rules := Normalizations(bases);
    assert ReplacedAll(NEIGHBOUR, rules[..0]) == NEIGHBOUR;
    assert ReplacedAll(NEIGHBOUR, rules) == Replaced(ReplacedAll(NEIGHBOUR, rules[..0]), root, token);
  }

  lemma {:induction false} NeighbourIsHost()
    ensures !OutsideRoots("$WORKSPACE" + "-old/x") && !PortableOk("$WORKSPACE" + "-old/x")
  {
    var portable := "$WORKSPACE" + "-old/x";
    assert Starts(portable, SHARED_ROOTS[1]) by {
      assert portable[..|"$WORKSPACE"|] == "$WORKSPACE";
    }
    forall i | 0 <= i < |PORTABLE_ROOTS|
      ensures !UnderRoot(portable, PORTABLE_ROOTS[i])
    {
      UnderNoRoot(i);
    }
  }

  lemma {:induction false} UnderNoRoot(i: nat)
    requires i < |PORTABLE_ROOTS|
    ensures !UnderRoot("$WORKSPACE" + "-old/x", PORTABLE_ROOTS[i])
  {
    var portable, root := "$WORKSPACE" + "-old/x", PORTABLE_ROOTS[i];
    if Starts(portable, root) {
      assert portable[..|root|][1] == portable[1] == 'W';
      assert root == "$WORKSPACE";
      assert portable[|root|] == '-';
    }
  }

  /** Recorded, because its name begins like the workspace, and never valid,
      because it lies in another checkout. */
  lemma {:induction false} NeighbourNeverValidates(manifest: Candidate -> bool)
    requires manifest(CandidateOf(NeighbourWorld(), NEIGHBOUR_READ))
    ensures CompileOk(NeighbourWorld(), NEIGHBOUR_READ) && InputsOk(NeighbourWorld(), NEIGHBOUR_READ.inputs)
    ensures Capture(manifest, NeighbourWorld(), NEIGHBOUR_READ).Ok?
    ensures !Validates(manifest, Capture(manifest, NeighbourWorld(), NEIGHBOUR_READ).value, NeighbourWorld())
  {
    hide CandidateOf, Normalize, OutsideRoots, PortableOk, Validates, Respelled;
    var w, k := NeighbourWorld(), NEIGHBOUR_READ;
    NeighbourIsRenamed();
    NeighbourIsHost();
    NeighbourNamesNoToken();
    assert Recordable(w, k.changed, NEIGHBOUR);
    ValidatesAtHome(manifest, w, k);
    assert !IsPortable(w, k.inputs[0]) && !HoldsAtHome(w, k.inputs[0]);
    HostStands(w, k.inputs, 0);
  }

  lemma {:induction false} NeighbourNamesNoToken()
    ensures BasesOk(NeighbourWorld().bases) && PathOk(NeighbourWorld(), NEIGHBOUR)
  {
    hide FoundAt;
    forall at | 0 <= at <= |NEIGHBOUR|
      ensures !FoundAt(NEIGHBOUR, "$WORKSPACE", at)
    {
      NoDollarNoToken(NEIGHBOUR, "$WORKSPACE", at);
    }
  }
}
