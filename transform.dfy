/**
  handle_transform: the orchestrator. It copies the template's Parameters
  and writes the runtime overrides into their Default fields, classifies
  every resource by its directive key, decodes the instance mapping named
  by the directive, emits the fan-out (Loop) or the rewritten resource
  (ArnList / RefList), and finally replaces the template's Resources.
  The functions give the meaning; the Template class and its helper
  methods are the step-by-step code, proved to compute it.
 */
module Transform {
  import opened Values
  import opened Walker
  import opened ListRef

  const ArnKey: string := "Base64loopArn"
  const RefKey: string := "Base64loopRef"
  const LoopKey: string := "Base64loop"

  /** The three kinds of directive, in the order handle_transform looks for them. */
  datatype MapType = ArnList | RefList | Loop

  /** The key that announces a directive of kind m. */
  function DirectiveKey(m: MapType): string {
    match m
    case ArnList => ArnKey
    case RefList => RefKey
    case Loop => LoopKey
  }

  /** How a resource is handled: passed through, or expanded in mode
      `mode` from the parameter named by `param`, the resource being
      `stripped` once its directive key is deleted. */
  datatype Directive =
    | Plain
    | Directed(mode: MapType, param: Value, stripped: seq<Entry>)

  /** Python's `x in s` on two strings: x occurs somewhere in s. */
  predicate Occurs(x: string, s: string) {
    exists i :: 0 <= i <= |s| && x <= s[i..]
  }

  /** The if/elif chain of the resource loop. On a mapping, `in` tests the
      keys; on a string it tests for a substring and the following
      subscript raises TypeError; on a list it tests membership, likewise
      followed by a TypeError; any other value cannot be searched by `in`. */
  function Classify(res: Value): (r: Result<Directive>)
    ensures r.Err? ==> r.error == TypeError && !res.Obj?
    ensures r.Ok? && r.value.Directed? ==> res.Obj?
  {
    match res
    case Obj(es) =>
      if ArnKey in Keys(es) then Ok(Directed(ArnList, Lookup(es, ArnKey).value, Remove(es, ArnKey)))
      else if RefKey in Keys(es) then Ok(Directed(RefList, Lookup(es, RefKey).value, Remove(es, RefKey)))
      else if LoopKey in Keys(es) then Ok(Directed(Loop, Lookup(es, LoopKey).value, Remove(es, LoopKey)))
      else Ok(Plain)
    case Str(s) =>
      if Occurs(ArnKey, s) || Occurs(RefKey, s) || Occurs(LoopKey, s) then Err(TypeError) else Ok(Plain)
    case List(items) =>
      if Str(ArnKey) in items || Str(RefKey) in items || Str(LoopKey) in items then Err(TypeError) else Ok(Plain)
    case _ => Err(TypeError)
  }

  // ---------------------------------------------------------------------
  // Runtime parameter overrides

  /** One parameter of the copied Parameters after the override loop:
      an overridden descriptor gets its Default assigned, which raises
      TypeError when the descriptor is not a mapping. */
  function Override(e: Entry, overrides: map<string, Value>): Result<Entry> {
    if e.key !in overrides then Ok(e)
    else match e.value
      case Obj(d) => Ok(Entry(e.key, Obj(Put(d, "Default", overrides[e.key]))))
      case _ => Err(TypeError)
  }

  /** The override loop over all parameters, in order. */
  function Overridden(params: seq<Entry>, overrides: map<string, Value>): (r: Result<seq<Entry>>)
    ensures r.Ok? ==> |r.value| == |params|
    ensures r.Err? ==> r.error == TypeError
    decreases params
  {
    if params == [] then Ok([])
    else
      var e :- Override(params[0], overrides);
      var rest :- Overridden(params[1..], overrides);
      Ok([e] + rest)
  }

  /** An element met by `for param in usedparams` when Parameters is a
      list or a string that stops the loop: a list or a mapping cannot be
      looked up among the overrides, and an element found there is then
      used as a subscript of the list or string, which takes only ints. */
  predicate RejectsOverride(x: Value, overrides: map<string, Value>) {
    x.List? || x.Obj? || (x.Str? && x.s in overrides)
  }

  /** usedparams after the override loop. A mapping is overridden
      parameter by parameter. A list or a string is iterated (a string
      character by character) and comes back as it was unless one of its
      elements stops the loop. Any other value cannot be iterated. */
  function OverrideParameters(params: Value, overrides: map<string, Value>): (r: Result<Value>)
    ensures r.Err? ==> r.error == TypeError
    ensures r.Ok? ==> (r.value.Obj? <==> params.Obj?)
    ensures r.Ok? && params.Obj? ==> |r.value.entries| == |params.entries|
    ensures r.Ok? && !params.Obj? ==> r.value == params && (params.List? || params.Str?)
  {
    match params
    case Obj(es) =>
      var used :- Overridden(es, overrides);
      Ok(Obj(used))
    case List(items) =>
      if forall i :: 0 <= i < |items| ==> !RejectsOverride(items[i], overrides) then Ok(params) else Err(TypeError)
    case Str(s) =>
      if forall i :: 0 <= i < |s| ==> [s[i]] !in overrides then Ok(params) else Err(TypeError)
    case _ => Err(TypeError)
  }

  // ---------------------------------------------------------------------
  // Instances

  /** A list or string subscript of length n: an int from -n to n - 1
      (negative ones count from the end) or a bool (0 or 1). Any other int
      raises IndexError, any other value TypeError. */
  function Index(n: nat, param: Value): (r: Result<nat>)
    ensures r.Ok? ==> r.value < n && (param.Int? || param.Bool?)
    ensures r.Ok? && param.Int? ==> r.value == param.i || r.value == param.i + n
    ensures param.Int? ==> (r.Ok? <==> -(n as int) <= param.i < n)
    ensures r.Err? ==> (r.error == IndexError <==> param.Int? || param.Bool?)
    ensures param.Bool? ==> var k := if param.b then 1 else 0; r == if k < n then Ok(k) else Err(IndexError)
    ensures !param.Int? && !param.Bool? ==> r == Err(TypeError)
  {
    match param
    case Int(k) => if 0 <= k < n then Ok(k) else if -(n as int) <= k < 0 then Ok(k + n) else Err(IndexError)
    case Bool(b) => var k := if b then 1 else 0; if k < n then Ok(k) else Err(IndexError)
    case _ => Err(TypeError)
  }

  /** `usedparams[base64loop_str]`. On a mapping, a string names a
      parameter, a list or a mapping cannot be a dict key, and any other
      value is simply absent. On a list or a string it is a subscript; a
      string subscript of either is a TypeError. */
  function Parameter(used: Value, param: Value): (r: Result<Value>)
    ensures used.Obj? && r.Ok? ==> param.Str? && Lookup(used.entries, param.s) == Some(r.value)
    ensures used.Obj? && param.Str? && r.Err? ==> r.error == KeyError(param)
    ensures used.List? ==> (r.Ok? <==> Index(|used.items|, param).Ok?)
    ensures used.List? && r.Ok? ==> r.value == used.items[Index(|used.items|, param).value]
    ensures used.Str? ==> (r.Ok? <==> Index(|used.s|, param).Ok?)
    ensures used.Str? && r.Ok? ==> r.value == Str([used.s[Index(|used.s|, param).value]])
    ensures !used.Obj? && param.Str? ==> r == Err(TypeError)
  {
    match used
    case Obj(es) =>
      (match param
       case Str(k) => if k in Keys(es) then Ok(Lookup(es, k).value) else Err(KeyError(param))
       case List(_) => Err(TypeError)
       case Obj(_) => Err(TypeError)
       case _ => Err(KeyError(param)))
    case List(items) =>
      var i :- Index(|items|, param);
      Ok(items[i])
    case Str(s) =>
      var i :- Index(|s|, param);
      Ok(Str([s[i]]))
    case _ => Err(TypeError)
  }

  /** `[...]['Default']` on a parameter descriptor. */
  function DefaultOf(desc: Value): (r: Result<Value>)
    ensures r.Ok? ==> desc.Obj? && Lookup(desc.entries, "Default") == Some(r.value)
  {
    match desc
    case Obj(d) => if "Default" in Keys(d) then Ok(Lookup(d, "Default").value) else Err(KeyError(Str("Default")))
    case _ => Err(TypeError)
  }

  /** What the rest of the loop can use of decode_param's result: only a
      mapping has the `.keys()` it calls next. */
  function Decoded(d: Option<Value>): (r: Result<seq<Entry>>)
    ensures r.Ok? <==> d.Some? && d.value.Obj?
    ensures r.Ok? ==> d.value == Obj(r.value)
  {
    match d
    case None => Err(DecodeError)
    case Some(Obj(inst)) => Ok(inst)
    case Some(_) => Err(AttributeError)
  }

  /** The instance mapping of a directive: the named parameter's Default,
      decoded. decode stands for decode_param (None: it raised). */
  function Instances(used: Value, param: Value, decode: Value -> Option<Value>): Result<seq<Entry>> {
    var desc :- Parameter(used, param);
    var default :- DefaultOf(desc);
    Decoded(decode(default))
  }

  // ---------------------------------------------------------------------
  // Emission

  /** The Loop branch from the instances inst on: every instance's key is
      assigned the resource walked with that instance's data. */
  function EmitInstances(resource: Value, inst: seq<Entry>, fuel: nat, out: seq<Entry>): Result<seq<Entry>>
    decreases inst
  {
    if inst == [] then Ok(out)
    else
      var w :- Walk(resource, inst[0].value, fuel);
      EmitInstances(resource, inst[1..], fuel, Put(out, inst[0].key, w))
  }

  /** The entries the Loop branch emits, on their own: one per instance,
      named by the instance key, in order. */
  function WalkedInstances(resource: Value, inst: seq<Entry>, fuel: nat): (r: Result<seq<Entry>>)
    ensures r.Ok? ==> |r.value| == |inst|
    decreases inst
  {
    if inst == [] then Ok([])
    else
      var w :- Walk(resource, inst[0].value, fuel);
      var rest :- WalkedInstances(resource, inst[1..], fuel);
      Ok([Entry(inst[0].key, w)] + rest)
  }

  /** One iteration of the resource loop, for the resource e, with
      new_resources out so far. */
  function ExpandOne(e: Entry, used: Value, decode: Value -> Option<Value>, fuel: nat, out: seq<Entry>): Result<seq<Entry>> {
    var d :- Classify(e.value);
    match d
    case Plain => Ok(Put(out, e.key, e.value))
    case Directed(mode, param, stripped) =>
      var inst :- Instances(used, param, decode);
      if mode == Loop then EmitInstances(Obj(stripped), inst, fuel, out)
      else
        var listed :- ListValue(Obj(stripped), Keys(inst));
        Ok(Put(out, e.key, listed))
  }

  /** The resource loop from the resources rs on. */
  function Expand(rs: seq<Entry>, used: Value, decode: Value -> Option<Value>, fuel: nat, out: seq<Entry>): Result<seq<Entry>>
    decreases rs
  {
    if rs == [] then Ok(out)
    else
      var out' :- ExpandOne(rs[0], used, decode, fuel, out);
      Expand(rs[1..], used, decode, fuel, out')
  }

  /** `template[k]` for a top-level section. */
  function Section(doc: seq<Entry>, k: string): (r: Result<Value>)
    ensures r.Ok? <==> k in Keys(doc)
    ensures r.Ok? ==> Lookup(doc, k) == Some(r.value)
    ensures r.Err? ==> r.error == KeyError(Str(k))
  {
    if k in Keys(doc) then Ok(Lookup(doc, k).value) else Err(KeyError(Str(k)))
  }

  /** handle_transform(template, overrides): the new template. */
  function Transform(doc: seq<Entry>, overrides: map<string, Value>, decode: Value -> Option<Value>, fuel: nat): Result<seq<Entry>> {
    var params :- Section(doc, "Parameters");
    var used :- OverrideParameters(params, overrides);
    var resources :- Section(doc, "Resources");
    if !resources.Obj? then Err(AttributeError)
    else
      var out :- Expand(resources.entries, used, decode, fuel, []);
      Ok(Put(doc, "Resources", Obj(out)))
  }

  // ---------------------------------------------------------------------
  // The code, step by step

  /** The template handed to the macro; handle_transform replaces its
      Resources section. */
  class Template {
    var doc: seq<Entry>

    constructor (doc: seq<Entry>)
      ensures this.doc == doc
    {
      this.doc := doc;
    }

    /** handle_transform: on success the template holds the new
        Resources; when it raises, Resources has not been reassigned. */
    method HandleTransform(overrides: map<string, Value>, decode: Value -> Option<Value>, fuel: nat) returns (r: Result<seq<Entry>>)
      modifies this
      ensures r == Transform(old(doc), overrides, decode, fuel)
      ensures r.Ok? ==> doc == r.value
      ensures r.Err? ==> doc == old(doc)
    {
      if "Parameters" !in Keys(doc) {
        return Err(KeyError(Str("Parameters")));
      }
      var params := Lookup(doc, "Parameters").value;
      var used := OverrideLoop(params, overrides);
      if used.Err? {
        return Err(used.error);
      }
      if "Resources" !in Keys(doc) {
        return Err(KeyError(Str("Resources")));
      }
      var resources := Lookup(doc, "Resources").value;
      if !resources.Obj? {
        return Err(AttributeError);
      }
      var newResources := ExpandResources(resources.entries, used.value, decode, fuel);
      if newResources.Err? {
        return Err(newResources.error);
      }
      doc := Put(doc, "Resources", Obj(newResources.value));
      return Ok(doc);
    }
  }

  /** The override loop `for param in usedparams`, whatever the shape of
      Parameters. */
  method OverrideLoop(params: Value, overrides: map<string, Value>) returns (r: Result<Value>)
    ensures r == OverrideParameters(params, overrides)
  {
    match params {
      case Obj(es) =>
        var used := ApplyOverrides(es, overrides);
        if used.Err? {
          return Err(used.error);
        }
        return Ok(Obj(used.value));
      case List(items) =>
        for i := 0 to |items|
          invariant forall j :: 0 <= j < i ==> !RejectsOverride(items[j], overrides)
        {
          if RejectsOverride(items[i], overrides) {
            return Err(TypeError);
          }
        }
        return Ok(params);
      case Str(s) =>
        for i := 0 to |s|
          invariant forall j :: 0 <= j < i ==> [s[j]] !in overrides
        {
          if [s[i]] in overrides {
            return Err(TypeError);
          }
        }
        return Ok(params);
      case _ =>
        return Err(TypeError);
    }
  }

  /** The override loop on a mapping: `usedparams[param]['Default'] = ...` writes the
      descriptor at the parameter's own position. */
  method ApplyOverrides(params: seq<Entry>, overrides: map<string, Value>) returns (r: Result<seq<Entry>>)
    ensures r == Overridden(params, overrides)
  {
    var used := params;
    assert params[0..] == params;
    PrependEmpty(Overridden(params, overrides));
    for i := 0 to |params|
      invariant |used| == |params|
      invariant used[i..] == params[i..]
      invariant Overridden(params, overrides) == Prepend(used[..i], Overridden(params[i..], overrides))
    {
      OverriddenStep(params[i..], overrides);
      assert params[i..][0] == params[i] && params[i..][1..] == params[i + 1..];
      var key := used[i].key;
      if key in overrides {
        match used[i].value {
          case Obj(d) =>
            used := used[i := Entry(key, Obj(Put(d, "Default", overrides[key])))];
          case _ =>
            return Err(TypeError);
        }
      }
      assert Override(params[i], overrides) == Ok(used[i]);
      PrependPrepend(used[..i], [used[i]], Overridden(params[i + 1..], overrides));
      SliceSnoc(used, i);
    }
    assert params[|params|..] == [];
    assert used[..|params|] + [] == used;
    return Ok(used);
  }

  /** The resource loop, filling new_resources. */
  method ExpandResources(rs: seq<Entry>, used: Value, decode: Value -> Option<Value>, fuel: nat) returns (r: Result<seq<Entry>>)
    ensures r == Expand(rs, used, decode, fuel, [])
  {
    var newResources: seq<Entry> := [];
    for i := 0 to |rs|
      invariant Expand(rs[i..], used, decode, fuel, newResources) == Expand(rs, used, decode, fuel, [])
    {
      var name, resource := rs[i].key, rs[i].value;
      ghost var step := ExpandOne(rs[i], used, decode, fuel, newResources);
      ExpandStep(rs[i..], used, decode, fuel, newResources);
      assert rs[i..][0] == rs[i] && rs[i..][1..] == rs[i + 1..];
      var directive := Classify(resource);
      if directive.Err? {
        return Err(directive.error);
      }
      match directive.value {
        case Plain =>
          newResources := Put(newResources, name, resource);
        case Directed(mode, param, stripped) =>
          var inst := Instances(used, param, decode);
          if inst.Err? {
            return Err(inst.error);
          }
          if mode == Loop {
            var emitted := EmitLoop(Obj(stripped), inst.value, fuel, newResources);
            if emitted.Err? {
              return Err(emitted.error);
            }
            newResources := emitted.value;
          } else {
            var names := InstanceNames(inst.value);
            var listed := ListResource(Obj(stripped), names);
            if listed.Err? {
              return Err(listed.error);
            }
            newResources := Put(newResources, name, listed.value);
          }
      }
      assert step == Ok(newResources);
    }
    assert rs[|rs|..] == [];
    return Ok(newResources);
  }

  /** The Loop branch: one walked copy of the resource per instance. */
  method EmitLoop(resource: Value, inst: seq<Entry>, fuel: nat, out: seq<Entry>) returns (r: Result<seq<Entry>>)
    ensures r == EmitInstances(resource, inst, fuel, out)
  {
    var newResources := out;
    for j := 0 to |inst|
      invariant EmitInstances(resource, inst[j..], fuel, newResources) == EmitInstances(resource, inst, fuel, out)
    {
      assert inst[j..][0] == inst[j] && inst[j..][1..] == inst[j + 1..];
      var w := WalkResource(resource, inst[j].value, fuel);
      if w.Err? {
        return Err(w.error);
      }
      newResources := Put(newResources, inst[j].key, w.value);
    }
    assert inst[|inst|..] == [];
    return Ok(newResources);
  }

  /** The `resourcelist.append(resource_instance)` loop. */
  method InstanceNames(inst: seq<Entry>) returns (names: seq<string>)
    ensures names == Keys(inst)
  {
    names := [];
    for j := 0 to |inst|
      invariant names == Keys(inst[..j])
    {
      KeysAppend(inst[..j], [inst[j]]);
      assert inst[..j] + [inst[j]] == inst[..j + 1];
      names := names + [inst[j].key];
    }
    assert inst[..|inst|] == inst;
  }

  /** One unfolding of the override loop. */
  lemma OverriddenStep(params: seq<Entry>, overrides: map<string, Value>)
    requires params != []
    ensures Override(params[0], overrides).Err? ==>
      Overridden(params, overrides) == Err(Override(params[0], overrides).error)
    ensures Override(params[0], overrides).Ok? ==>
      Overridden(params, overrides) == Prepend([Override(params[0], overrides).value], Overridden(params[1..], overrides))
  {
  }

  /** One unfolding of the resource loop. */
  lemma ExpandStep(rs: seq<Entry>, used: Value, decode: Value -> Option<Value>, fuel: nat, out: seq<Entry>)
    requires rs != []
    ensures ExpandOne(rs[0], used, decode, fuel, out).Err? ==>
      Expand(rs, used, decode, fuel, out) == Err(ExpandOne(rs[0], used, decode, fuel, out).error)
    ensures ExpandOne(rs[0], used, decode, fuel, out).Ok? ==>
      Expand(rs, used, decode, fuel, out) == Expand(rs[1..], used, decode, fuel, ExpandOne(rs[0], used, decode, fuel, out).value)
  {
  }

  // ---------------------------------------------------------------------
  // Classification

  /** Python's `in` on strings: a string containing x contains every prefix of x. */
  lemma OccursPrefix(x: string, p: string, s: string)
    requires p <= x && Occurs(x, s)
    ensures Occurs(p, s)
  {
    var i :| 0 <= i <= |s| && x <= s[i..];
    assert p <= s[i..];
  }

  /** A mapping is always classified: it is passed through exactly when it
      holds none of the three directive keys. */
  lemma ClassifyMapping(es: seq<Entry>)
    ensures Classify(Obj(es)).Ok?
    ensures Classify(Obj(es)) == Ok(Plain) <==> ArnKey !in Keys(es) && RefKey !in Keys(es) && LoopKey !in Keys(es)
  {
  }

  /** The chosen directive is the first key present in the order
      Base64loopArn, Base64loopRef, Base64loop; its value names the
      parameter; only that key is deleted and every other key of the
      resource, other directive keys included, keeps its value. */
  lemma ClassifyChoice(es: seq<Entry>, m: MapType, p: Value, st: seq<Entry>)
    requires Classify(Obj(es)) == Ok(Directed(m, p, st))
    ensures Lookup(es, DirectiveKey(m)) == Some(p)
    ensures m != ArnList ==> ArnKey !in Keys(es)
    ensures m == Loop ==> RefKey !in Keys(es)
    ensures DirectiveKey(m) !in Keys(st)
    ensures forall k :: k != DirectiveKey(m) ==> Lookup(st, k) == Lookup(es, k)
  {
  }

  /** Deleting the directive key keeps the other fields of the resource in
      their order: the stripped resource is the resource without the
      directive's own entry. */
  lemma StrippedOrder(es: seq<Entry>, m: MapType, p: Value, st: seq<Entry>, i: nat)
    requires Classify(Obj(es)) == Ok(Directed(m, p, st)) && Distinct(Keys(es))
    requires i < |es| && es[i].key == DirectiveKey(m)
    ensures st == es[..i] + es[i + 1..]
  {
    StrippedIsRemoved(es, m, p, st);
    RemoveAt(es, i);
  }

  lemma StrippedIsRemoved(es: seq<Entry>, m: MapType, p: Value, st: seq<Entry>)
    requires Classify(Obj(es)) == Ok(Directed(m, p, st))
    ensures st == Remove(es, DirectiveKey(m))
  {
  }

  /** A string resource raises TypeError exactly when "Base64loop" occurs
      in it (the other two keys begin with it); otherwise it passes through. */
  lemma ClassifyString(s: string)
    ensures Classify(Str(s)) == if Occurs(LoopKey, s) then Err(TypeError) else Ok(Plain)
  {
    if Occurs(ArnKey, s) {
      OccursPrefix(ArnKey, LoopKey, s);
    }
    if Occurs(RefKey, s) {
      OccursPrefix(RefKey, LoopKey, s);
    }
  }

  // ---------------------------------------------------------------------
  // Overrides

  /** The override loop raises (TypeError) exactly when an overridden
      parameter's descriptor is not a mapping; otherwise every parameter
      keeps its name and place and is overridden on its own. */
  lemma {:induction false} OverriddenSpec(params: seq<Entry>, overrides: map<string, Value>)
    ensures Overridden(params, overrides).Ok? <==>
      forall i :: 0 <= i < |params| && params[i].key in overrides ==> params[i].value.Obj?
    ensures Overridden(params, overrides).Err? ==> Overridden(params, overrides).error == TypeError
    ensures Overridden(params, overrides).Ok? ==> Keys(Overridden(params, overrides).value) == Keys(params)
    ensures Overridden(params, overrides).Ok? ==>
      forall i :: 0 <= i < |params| ==> Override(params[i], overrides) == Ok(Overridden(params, overrides).value[i])
    decreases params
  {
    if params != [] {
      OverriddenSpec(params[1..], overrides);
      forall i | 0 < i < |params| ensures params[i] == params[1..][i - 1] {
      }
      var r := Overridden(params, overrides);
      if r.Ok? {
        var rest := Overridden(params[1..], overrides).value;
        assert r.value == [r.value[0]] + rest;
        assert Keys(r.value) == [r.value[0].key] + Keys(rest);
        assert Keys(params) == [params[0].key] + Keys(params[1..]);
      }
    }
  }

  /** Overriding one parameter: its name is kept; a parameter with no
      override is untouched; an overridden one has Default set to the
      runtime value and every other field of its descriptor as it was. */
  lemma OverrideEntry(e: Entry, overrides: map<string, Value>, e': Entry)
    requires Override(e, overrides) == Ok(e')
    ensures e'.key == e.key
    ensures e.key !in overrides ==> e' == e
    ensures e.key in overrides ==> e.value.Obj? && e'.value.Obj?
    ensures e.key in overrides ==> Lookup(e'.value.entries, "Default") == Some(overrides[e.key])
    ensures e.key in overrides ==> forall k :: k != "Default" ==> Lookup(e'.value.entries, k) == Lookup(e.value.entries, k)
  {
    if e.key in overrides {
      forall k | k != "Default" ensures Lookup(e'.value.entries, k) == Lookup(e.value.entries, k) {
        PutOther(e.value.entries, "Default", overrides[e.key], k);
      }
    }
  }

  /** The descriptor the resource loop sees under a name is the template's
      descriptor under that name, overridden. */
  lemma {:induction false} OverriddenLookup(params: seq<Entry>, overrides: map<string, Value>, k: string)
    requires Overridden(params, overrides).Ok? && k in Keys(params)
    ensures Lookup(Overridden(params, overrides).value, k).Some?
    ensures Override(Entry(k, Lookup(params, k).value), overrides) == Ok(Entry(k, Lookup(Overridden(params, overrides).value, k).value))
    decreases params
  {
    var used := Overridden(params, overrides).value;
    var e := Override(params[0], overrides).value;
    assert used[0] == e;
    OverrideEntry(params[0], overrides, e);
    if params[0].key != k {
      assert Keys(params[1..]) == Keys(params)[1..];
      OverriddenLookup(params[1..], overrides, k);
      assert used[1..] == Overridden(params[1..], overrides).value;
    }
  }

  /** The instances of a directive naming parameter k come from the
      runtime value when k is overridden, from the template's Default
      when it is not, and raise KeyError(k) when there is no parameter k. */
  lemma OverrideDecoded(params: seq<Entry>, overrides: map<string, Value>, k: string, decode: Value -> Option<Value>)
    requires Overridden(params, overrides).Ok?
    ensures k !in Keys(params) ==> Instances(Obj(Overridden(params, overrides).value), Str(k), decode) == Err(KeyError(Str(k)))
    ensures k in Keys(params) && k in overrides ==>
      Instances(Obj(Overridden(params, overrides).value), Str(k), decode) == Decoded(decode(overrides[k]))
    ensures k !in overrides ==>
      Instances(Obj(Overridden(params, overrides).value), Str(k), decode) == Instances(Obj(params), Str(k), decode)
  {
    var used := Overridden(params, overrides).value;
    OverriddenSpec(params, overrides);
    ParameterNamed(used, k);
    ParameterNamed(params, k);
    if k in Keys(params) {
      OverriddenLookup(params, overrides, k);
      var desc := Lookup(used, k).value;
      OverrideEntry(Entry(k, Lookup(params, k).value), overrides, Entry(k, desc));
      if k in overrides {
        OverriddenDefault(desc, overrides[k]);
      }
    }
  }

  /** `usedparams[k]` on a mapping Parameters. */
  lemma ParameterNamed(es: seq<Entry>, k: string)
    ensures Parameter(Obj(es), Str(k)) == if k in Keys(es) then Ok(Lookup(es, k).value) else Err(KeyError(Str(k)))
  {
  }

  /** A descriptor whose Default was assigned v yields v. */
  lemma OverriddenDefault(desc: Value, v: Value)
    requires desc.Obj? && Lookup(desc.entries, "Default") == Some(v)
    ensures DefaultOf(desc) == Ok(v)
  {
  }

  // ---------------------------------------------------------------------
  // Emission

  /** One unfolding of the Loop branch. */
  lemma EmitStep(resource: Value, inst: seq<Entry>, fuel: nat, out: seq<Entry>)
    requires inst != []
    ensures Walk(resource, inst[0].value, fuel).Err? ==>
      EmitInstances(resource, inst, fuel, out) == Err(Walk(resource, inst[0].value, fuel).error)
    ensures Walk(resource, inst[0].value, fuel).Ok? ==>
      EmitInstances(resource, inst, fuel, out) ==
      EmitInstances(resource, inst[1..], fuel, Put(out, inst[0].key, Walk(resource, inst[0].value, fuel).value))
  {
  }

  /** With instance keys that are new and distinct, every assignment of the
      Loop branch appends: the branch yields what it had before followed by
      one entry per instance. */
  lemma {:induction false} EmitInstancesAppend(resource: Value, inst: seq<Entry>, fuel: nat, out: seq<Entry>)
    requires Distinct(Keys(out) + Keys(inst))
    ensures EmitInstances(resource, inst, fuel, out) == Prepend(out, WalkedInstances(resource, inst, fuel))
    decreases inst
  {
    if inst == [] {
      assert out + [] == out;
    } else {
      var e := inst[0];
      EmitStep(resource, inst, fuel, out);
      var w := Walk(resource, e.value, fuel);
      if w.Ok? {
        var out' := out + [Entry(e.key, w.value)];
        StepDistinct(out, inst, out', w.value);
        assert Put(out, e.key, w.value) == out';
        EmitInstancesAppend(resource, inst[1..], fuel, out');
        var rest := WalkedInstances(resource, inst[1..], fuel);
        assert WalkedInstances(resource, inst, fuel) == Prepend([Entry(e.key, w.value)], rest);
        PrependPrepend(out, [Entry(e.key, w.value)], rest);
      }
    }
  }

  /** The emitted entries succeed exactly when every instance's walk does;
      entry i is named by instance key i and holds the resource walked with
      instance i's data. */
  lemma {:induction false} WalkedPointwise(resource: Value, inst: seq<Entry>, fuel: nat)
    ensures WalkedInstances(resource, inst, fuel).Ok? <==> forall i :: 0 <= i < |inst| ==> Walk(resource, inst[i].value, fuel).Ok?
    ensures WalkedInstances(resource, inst, fuel).Ok? ==> forall i :: 0 <= i < |inst| ==>
      WalkedInstances(resource, inst, fuel).value[i] == Entry(inst[i].key, Walk(resource, inst[i].value, fuel).value)
    decreases inst
  {
    if inst != [] {
      WalkedPointwise(resource, inst[1..], fuel);
      forall i | 0 < i < |inst| ensures inst[i] == inst[1..][i - 1] {
      }
    }
  }

  /** The Loop branch only writes instance keys: a name that is neither
      among them nor already emitted does not appear. */
  lemma {:induction false} EmitKeys(resource: Value, inst: seq<Entry>, fuel: nat, out: seq<Entry>, k: string)
    requires EmitInstances(resource, inst, fuel, out).Ok?
    requires k !in Keys(out) && k !in Keys(inst)
    ensures k !in Keys(EmitInstances(resource, inst, fuel, out).value)
    decreases inst
  {
    if inst != [] {
      EmitStep(resource, inst, fuel, out);
      var w := Walk(resource, inst[0].value, fuel).value;
      var out' := Put(out, inst[0].key, w);
      assert k != inst[0].key by {
        assert Keys(inst)[0] == inst[0].key;
      }
      if inst[0].key !in Keys(out) {
        KeysAppend(out, [Entry(inst[0].key, w)]);
      }
      assert k !in Keys(out');
      assert Keys(inst[1..]) == Keys(inst)[1..];
      EmitKeys(resource, inst[1..], fuel, out', k);
    }
  }

  // ---------------------------------------------------------------------
  // Dispatch

  /** A Loop directive emits, after what was emitted before, one resource
      per instance key in the decoded mapping's order, named by that key and
      walked with that instance's data; the resource's own name is not
      emitted. */
  lemma ExpandLoop(e: Entry, used: Value, decode: Value -> Option<Value>, fuel: nat, out: seq<Entry>,
                   p: Value, st: seq<Entry>, inst: seq<Entry>)
    requires Classify(e.value) == Ok(Directed(Loop, p, st)) && Instances(used, p, decode) == Ok(inst)
    requires Distinct(Keys(out) + Keys(inst))
    ensures ExpandOne(e, used, decode, fuel, out) == Prepend(out, WalkedInstances(Obj(st), inst, fuel))
    ensures ExpandOne(e, used, decode, fuel, out).Ok? && e.key !in Keys(out) && e.key !in Keys(inst) ==>
      e.key !in Keys(ExpandOne(e, used, decode, fuel, out).value)
  {
    EmitInstancesAppend(Obj(st), inst, fuel, out);
    if ExpandOne(e, used, decode, fuel, out).Ok? && e.key !in Keys(out) && e.key !in Keys(inst) {
      EmitKeys(Obj(st), inst, fuel, out, e.key);
    }
  }

  /** An ArnList or RefList directive emits one resource under the
      resource's own name: list_resource of the stripped resource with the
      instance keys, in order, as names; it keeps every remaining field in
      place. */
  lemma ExpandList(e: Entry, used: Value, decode: Value -> Option<Value>, fuel: nat, out: seq<Entry>,
                   m: MapType, p: Value, st: seq<Entry>, inst: seq<Entry>)
    requires Classify(e.value) == Ok(Directed(m, p, st)) && m != Loop && Instances(used, p, decode) == Ok(inst)
    requires Distinct(Keys(e.value.entries))
    ensures ExpandOne(e, used, decode, fuel, out).Ok? <==> ListValue(Obj(st), Keys(inst)).Ok?
    ensures ExpandOne(e, used, decode, fuel, out).Ok? ==>
      var r := ExpandOne(e, used, decode, fuel, out).value;
      Lookup(r, e.key) == Some(ListValue(Obj(st), Keys(inst)).value) &&
      (e.key !in Keys(out) ==> r == out + [Entry(e.key, ListValue(Obj(st), Keys(inst)).value)])
    ensures ListValue(Obj(st), Keys(inst)).Ok? ==>
      var lr := ListValue(Obj(st), Keys(inst)).value;
      lr.Obj? && Keys(lr.entries) == Keys(st) &&
      forall j :: 0 <= j < |st| ==> ListField(st[j].value, Keys(inst)) == Ok(lr.entries[j].value)
  {
    StrippedShape(e.value.entries, m, p, st, Keys(inst));
  }

  /** list_resource on a resource stripped of its directive keeps every
      remaining field in its place. */
  lemma StrippedShape(es: seq<Entry>, m: MapType, p: Value, st: seq<Entry>, names: seq<string>)
    requires Classify(Obj(es)) == Ok(Directed(m, p, st)) && Distinct(Keys(es))
    ensures ListValue(Obj(st), names).Ok? ==>
      var lr := ListValue(Obj(st), names).value;
      lr.Obj? && Keys(lr.entries) == Keys(st) &&
      forall j :: 0 <= j < |st| ==> ListField(st[j].value, names) == Ok(lr.entries[j].value)
  {
    var lv := ListValue(Obj(st), names);
    if lv.Ok? {
      assert st == Remove(es, DirectiveKey(m));
      RemoveDistinct(es, DirectiveKey(m));
      ListShape(st, names, lv.value.entries);
    }
  }

  /** A directive naming a parameter that a mapping Parameters does not
      declare raises KeyError with that name, whatever was emitted before;
      with Parameters a list or a string, the name is a string subscript
      and raises TypeError. */
  lemma MissingParameter(e: Entry, used: Value, decode: Value -> Option<Value>, fuel: nat,
                         m: MapType, k: string, st: seq<Entry>)
    requires Classify(e.value) == Ok(Directed(m, Str(k), st))
    requires used.Obj? ==> k !in Keys(used.entries)
    ensures forall out :: ExpandOne(e, used, decode, fuel, out) == Err(if used.Obj? then KeyError(Str(k)) else TypeError)
    ensures AlwaysFails(e, used, decode, fuel)
  {
  }

  /** A resource that raises whatever was emitted before makes the whole
      resource loop raise. */
  lemma {:induction false} ExpandRejects(rs: seq<Entry>, j: nat, used: Value, decode: Value -> Option<Value>, fuel: nat, out: seq<Entry>)
    requires j < |rs| && AlwaysFails(rs[j], used, decode, fuel)
    ensures Expand(rs, used, decode, fuel, out).Err?
    decreases rs
  {
    ExpandStep(rs, used, decode, fuel, out);
    var step := ExpandOne(rs[0], used, decode, fuel, out);
    if step.Ok? {
      FailsLater(rs, j, used, decode, fuel, out);
      ExpandRejects(rs[1..], j - 1, used, decode, fuel, step.value);
    }
  }

  /** The resource e raises whatever new_resources holds. */
  ghost predicate AlwaysFails(e: Entry, used: Value, decode: Value -> Option<Value>, fuel: nat) {
    forall out :: ExpandOne(e, used, decode, fuel, out).Err?
  }

  lemma FailsLater(rs: seq<Entry>, j: nat, used: Value, decode: Value -> Option<Value>, fuel: nat, out: seq<Entry>)
    requires j < |rs| && AlwaysFails(rs[j], used, decode, fuel)
    requires ExpandOne(rs[0], used, decode, fuel, out).Ok?
    ensures 0 < j && AlwaysFails(rs[1..][j - 1], used, decode, fuel)
  {
    ghost var atJ := ExpandOne(rs[j], used, decode, fuel, out);
    TailIndex(rs, j);
  }

  /** Resources without a directive pass through under their own names
      and in their own places. */
  lemma {:induction false} ExpandPlain(rs: seq<Entry>, used: Value, decode: Value -> Option<Value>, fuel: nat, out: seq<Entry>)
    requires AllPlain(rs)
    requires Distinct(Keys(out) + Keys(rs))
    ensures Expand(rs, used, decode, fuel, out) == Ok(out + rs)
    decreases rs
  {
    if rs == [] {
      assert out + [] == out;
    } else {
      ExpandStep(rs, used, decode, fuel, out);
      PlainTail(rs);
      StepDistinct(out, rs, out + [rs[0]], rs[0].value);
      PlainStep(rs[0], used, decode, fuel, out);
      ExpandPlain(rs[1..], used, decode, fuel, out + [rs[0]]);
      ConsAppend(out, rs);
    }
  }

  /** None of the resources carries a directive. */
  ghost predicate AllPlain(rs: seq<Entry>) {
    forall i :: 0 <= i < |rs| ==> Classify(rs[i].value) == Ok(Plain)
  }

  lemma PlainTail(rs: seq<Entry>)
    requires rs != [] && AllPlain(rs)
    ensures Classify(rs[0].value) == Ok(Plain) && AllPlain(rs[1..])
  {
    forall i | 0 <= i < |rs[1..]| ensures Classify(rs[1..][i].value) == Ok(Plain) {
      assert rs[1..][i] == rs[i + 1];
    }
  }

  /** A resource without a directive is assigned under its own name. */
  lemma PlainStep(e: Entry, used: Value, decode: Value -> Option<Value>, fuel: nat, out: seq<Entry>)
    requires Classify(e.value) == Ok(Plain) && e.key !in Keys(out)
    ensures ExpandOne(e, used, decode, fuel, out) == Ok(out + [e])
  {
  }

  // ---------------------------------------------------------------------
  // The whole transform

  /** Only Resources is reassigned: every other section, Parameters
      included (the overrides go to a copy), keeps its key, place and value. */
  lemma TransformFrame(doc: seq<Entry>, overrides: map<string, Value>, decode: Value -> Option<Value>, fuel: nat)
    requires Transform(doc, overrides, decode, fuel).Ok?
    ensures Keys(Transform(doc, overrides, decode, fuel).value) == Keys(doc)
    ensures forall k :: k != "Resources" ==> Lookup(Transform(doc, overrides, decode, fuel).value, k) == Lookup(doc, k)
    ensures Lookup(Transform(doc, overrides, decode, fuel).value, "Resources").Some?
  {
    var params := Lookup(doc, "Parameters").value;
    var used := OverrideParameters(params, overrides).value;
    var resources := Lookup(doc, "Resources").value;
    var out := Expand(resources.entries, used, decode, fuel, []).value;
    assert Transform(doc, overrides, decode, fuel) == Ok(Put(doc, "Resources", Obj(out)));
    PutFrame(doc, "Resources", Obj(out));
  }

  /** A template none of whose resources carries a directive comes back
      unchanged. */
  lemma TransformIdentity(doc: seq<Entry>, overrides: map<string, Value>, decode: Value -> Option<Value>, fuel: nat, rs: seq<Entry>)
    requires Distinct(Keys(doc))
    requires "Parameters" in Keys(doc) && OverrideParameters(Lookup(doc, "Parameters").value, overrides).Ok?
    requires Lookup(doc, "Resources") == Some(Obj(rs)) && Distinct(Keys(rs))
    requires AllPlain(rs)
    ensures Transform(doc, overrides, decode, fuel) == Ok(doc)
  {
    var used := OverrideParameters(Lookup(doc, "Parameters").value, overrides).value;
    ExpandAllPlain(rs, used, decode, fuel);
    PutSame(doc, "Resources", Obj(rs));
  }

  /** A resource loop over resources without directives rebuilds them as they were. */
  lemma ExpandAllPlain(rs: seq<Entry>, used: Value, decode: Value -> Option<Value>, fuel: nat)
    requires AllPlain(rs) && Distinct(Keys(rs))
    ensures Expand(rs, used, decode, fuel, []) == Ok(rs)
  {
    assert Keys([]) + Keys(rs) == Keys(rs);
    ExpandPlain(rs, used, decode, fuel, []);
    assert [] + rs == rs;
  }

  /** A directive naming a parameter the template does not declare makes
      the whole transform raise, so Resources is never reassigned; so does
      any string-named directive when Parameters is not a mapping. */
  lemma TransformMissingParameter(doc: seq<Entry>, overrides: map<string, Value>, decode: Value -> Option<Value>, fuel: nat,
                                  rs: seq<Entry>, j: nat, m: MapType, k: string, st: seq<Entry>)
    requires Lookup(doc, "Resources") == Some(Obj(rs)) && j < |rs|
    requires Classify(rs[j].value) == Ok(Directed(m, Str(k), st))
    requires "Parameters" in Keys(doc) && Lookup(doc, "Parameters").value.Obj? ==>
      k !in Keys(Lookup(doc, "Parameters").value.entries)
    ensures Transform(doc, overrides, decode, fuel).Err?
  {
    if "Parameters" in Keys(doc) {
      var params := Lookup(doc, "Parameters").value;
      if OverrideParameters(params, overrides).Ok? {
        var used := OverrideParameters(params, overrides).value;
        if params.Obj? {
          OverriddenSpec(params.entries, overrides);
        }
        MissingParameter(rs[j], used, decode, fuel, m, k, st);
        ExpandRejects(rs, j, used, decode, fuel, []);
      }
    }
  }
}
