/**
  walk_resource: the fan-out substituter. It copies one resource mapping for
  one instance, resolving the inline tokens of its string fields against the
  instance's data. The functions give the meaning; WalkResource,
  WalkList and ResolveField are the step-by-step code, proved to compute it.
 */
module Walker {
  import opened Values
  import opened Token

  /** `isinstance(resource, str) and not resource.startswith('!')` */
  predicate IsBareString(v: Value) {
    v.Str? && !(|v.s| > 0 && v.s[0] == '!')
  }

  /** The outcome of the substitution loop of one string field: the field's
      new value and the loop's `replace_value`, which outlives the field. */
  datatype Resolved = Resolved(value: Value, last: Option<Value>)

  /** The `try: replace_value = map_data[explode_key] except KeyError` step:
      a missing key keeps the previous replace_value (None when unbound). */
  function LookupReplacement(data: Value, key: string, last: Option<Value>): (r: Result<Option<Value>>)
    ensures r.Ok? <==> data.Obj?
    ensures data.Obj? && key in Keys(data.entries) ==> r == Ok(Lookup(data.entries, key))
    ensures data.Obj? && key !in Keys(data.entries) ==> r == Ok(last)
  {
    match data
    case Obj(es) => (if key in Keys(es) then Ok(Lookup(es, key)) else Ok(last))
    case _ => Err(TypeError)
  }

  /** True of the values that replace a whole field: `isinstance(v, (int, list))`,
      where Python's bool is an int. */
  predicate ReplacesWholeField(v: Value) {
    v.Int? || v.Bool? || v.List?
  }

  /** The `while match:` loop of the string branch, for a field now holding
      s with `replace_value` last. Each iteration costs one unit of fuel; a
      value that replaces the whole field sets `match` to None, which ends
      the loop. */
  function Resolve(s: string, data: Value, last: Option<Value>, fuel: nat): (r: Result<Resolved>)
    ensures Search(s).None? ==> r == Ok(Resolved(Str(s), last))
    ensures r.Ok? && Search(s).Some? ==> r.value.last.Some?
    ensures r.Ok? && !r.value.value.Str? ==> ReplacesWholeField(r.value.value) && r.value.last == Some(r.value.value)
    decreases fuel
  {
    var m := Search(s);
    if m.None? then Ok(Resolved(Str(s), last))
    else if fuel == 0 then Err(OutOfFuel)
    else
      var rv :- LookupReplacement(data, m.value.key, last);
      if rv.None? then Err(UnboundLocalError)
      else if ReplacesWholeField(rv.value) then Ok(Resolved(rv.value, rv))
      else if rv.value.Str? then Resolve(ReplaceAll(s, m.value.text, rv.value.s), data, rv, fuel - 1)
      else Err(TypeError)
  }

  /** walk_resource(v, data): a bare string is returned as it is, a mapping
      is copied field by field, anything else raises AttributeError (on `.items()`). */
  function Walk(v: Value, data: Value, fuel: nat): Result<Value>
    decreases v
  {
    if IsBareString(v) then Ok(v)
    else match v
      case Obj(es) =>
        var out :- WalkEntries(es, data, Walked(None, []), fuel);
        Ok(Obj(out))
      case _ => Err(AttributeError)
  }

  /** The state the `for key, value in resource.items()` loop carries from
      one entry to the next: `replace_value` and `new_resource` so far. */
  datatype Walked = Walked(last: Option<Value>, out: seq<Entry>)

  /** One iteration of that loop, for the entry e. */
  function WalkEntry(e: Entry, data: Value, st: Walked, fuel: nat): Result<Walked>
    decreases e
  {
    match e.value
    case Obj(_) =>
      var w :- Walk(e.value, data, fuel);
      Ok(Walked(st.last, Put(st.out, e.key, w)))
    case List(items) =>
      // the walked list is built and then dropped: new_resource[key] is never set
      var built :- WalkItems(items, data, fuel);
      Ok(st)
    case Str(s) =>
      var r :- Resolve(s, data, st.last, fuel);
      Ok(Walked(r.last, Put(st.out, e.key, r.value)))
    case _ =>
      Ok(Walked(st.last, Put(st.out, e.key, e.value)))
  }

  /** The loop from the entries es on, starting from the state st. */
  function WalkEntries(es: seq<Entry>, data: Value, st: Walked, fuel: nat): Result<seq<Entry>>
    decreases es
  {
    if es == [] then Ok(st.out)
    else
      var st' :- WalkEntry(es[0], data, st, fuel);
      WalkEntries(es[1..], data, st', fuel)
  }

  /** The list branch: every item is walked in order. */
  function WalkItems(items: seq<Value>, data: Value, fuel: nat): (r: Result<seq<Value>>)
    ensures r.Ok? ==> |r.value| == |items|
    decreases items
  {
    if items == [] then Ok([])
    else
      var w :- Walk(items[0], data, fuel);
      var rest :- WalkItems(items[1..], data, fuel);
      Ok([w] + rest)
  }

  // ---------------------------------------------------------------------
  // The code, step by step

  /** The while loop of the string branch. */
  method ResolveField(s: string, data: Value, last: Option<Value>, fuel: nat) returns (r: Result<Resolved>)
    ensures r == Resolve(s, data, last, fuel)
  {
    var newValue := s;
    var found := Search(s);
    var replaceValue := last;
    var steps := fuel;
    while found.Some?
      invariant found == Search(newValue)
      invariant Resolve(newValue, data, replaceValue, steps) == Resolve(s, data, last, fuel)
      decreases steps
    {
      if steps == 0 {
        return Err(OutOfFuel);
      }
      var looked := LookupReplacement(data, found.value.key, replaceValue);
      if looked.Err? {
        return Err(looked.error);
      }
      replaceValue := looked.value;
      if replaceValue.None? {
        return Err(UnboundLocalError);
      }
      var v := replaceValue.value;
      if ReplacesWholeField(v) {
        // the field becomes v and `match = None` ends the loop
        return Ok(Resolved(v, replaceValue));
      } else if v.Str? {
        newValue := ReplaceAll(newValue, found.value.text, v.s);
        found := Search(newValue);
      } else {
        return Err(TypeError);
      }
      steps := steps - 1;
    }
    return Ok(Resolved(Str(newValue), replaceValue));
  }

  /** walk_resource. */
  method WalkResource(resource: Value, data: Value, fuel: nat) returns (r: Result<Value>)
    ensures r == Walk(resource, data, fuel)
    decreases resource
  {
    if IsBareString(resource) {
      return Ok(resource);
    }
    if !resource.Obj? {
      return Err(AttributeError);
    }
    var es := resource.entries;
    var newResource: seq<Entry> := [];
    var last: Option<Value> := None;
    for i := 0 to |es|
      invariant WalkEntries(es[i..], data, Walked(last, newResource), fuel) == WalkEntries(es, data, Walked(None, []), fuel)
    {
      var key, value := es[i].key, es[i].value;
      ghost var step := WalkEntry(es[i], data, Walked(last, newResource), fuel);
      assert es[i..][0] == es[i] && es[i..][1..] == es[i + 1..];
      assert step.Err? ==> WalkEntries(es[i..], data, Walked(last, newResource), fuel) == Err(step.error);
      assert step.Ok? ==> WalkEntries(es[i..], data, Walked(last, newResource), fuel) == WalkEntries(es[i + 1..], data, step.value, fuel);
      match value {
        case Obj(_) =>
          var w := WalkResource(value, data, fuel);
          if w.Err? {
            return Err(w.error);
          }
          newResource := Put(newResource, key, w.value);
        case List(items) =>
          var built := WalkList(items, data, fuel);
          if built.Err? {
            return Err(built.error);
          }
        case Str(s) =>
          var resolved := ResolveField(s, data, last, fuel);
          if resolved.Err? {
            return Err(resolved.error);
          }
          newResource := Put(newResource, key, resolved.value.value);
          last := resolved.value.last;
        case _ =>
          newResource := Put(newResource, key, value);
      }
      assert step == Ok(Walked(last, newResource));
    }
    assert es[|es|..] == [];
    return Ok(Obj(newResource));
  }

  /** The inner `for listitem in value` loop of the list branch. */
  method WalkList(items: seq<Value>, data: Value, fuel: nat) returns (r: Result<seq<Value>>)
    ensures r == WalkItems(items, data, fuel)
    decreases items
  {
    var built: seq<Value> := [];
    assert items[0..] == items;
    PrependEmpty(WalkItems(items, data, fuel));
    for j := 0 to |items|
      invariant WalkItems(items, data, fuel) == Prepend(built, WalkItems(items[j..], data, fuel))
    {
      assert items[j..][0] == items[j] && items[j..][1..] == items[j + 1..];
      var w := WalkResource(items[j], data, fuel);
      if w.Err? {
        return Err(w.error);
      }
      ghost var rest := WalkItems(items[j + 1..], data, fuel);
      assert WalkItems(items[j..], data, fuel) == Prepend([w.value], rest);
      PrependPrepend(built, [w.value], rest);
      built := built + [w.value];
    }
    assert items[|items|..] == [];
    assert built + [] == built;
    return Ok(built);
  }

  // ---------------------------------------------------------------------
  // The substitution loop

  /** A token whose key maps to a string: every occurrence of the matched
      token text is replaced, and the loop scans the result again. */
  lemma ResolveSubstitutes(s: string, es: seq<Entry>, last: Option<Value>, fuel: nat, m: Match, t: string)
    requires Search(s) == Some(m)
    requires Lookup(es, m.key) == Some(Str(t))
    ensures Resolve(s, Obj(es), last, fuel + 1) == Resolve(ReplaceAll(s, m.text, t), Obj(es), Some(Str(t)), fuel)
  {
  }

  /** A token whose key maps to an int, a bool or a list: the field becomes
      that value, and later tokens in the field are never looked at. */
  lemma ResolveWholeField(s: string, es: seq<Entry>, last: Option<Value>, fuel: nat, m: Match, v: Value)
    requires Search(s) == Some(m)
    requires Lookup(es, m.key) == Some(v) && ReplacesWholeField(v)
    ensures Resolve(s, Obj(es), last, fuel + 1) == Ok(Resolved(v, Some(v)))
  {
  }

  /** A token whose key is missing from the instance data reuses the
      replace_value left by an earlier token of the same walk_resource call,
      and raises UnboundLocalError when there was none. */
  lemma ResolveMissingKey(s: string, es: seq<Entry>, last: Option<Value>, fuel: nat, m: Match)
    requires Search(s) == Some(m)
    requires m.key !in Keys(es)
    ensures last.None? ==> Resolve(s, Obj(es), last, fuel + 1) == Err(UnboundLocalError)
    ensures last.Some? && last.value.Str? ==>
      Resolve(s, Obj(es), last, fuel + 1) == Resolve(ReplaceAll(s, m.text, last.value.s), Obj(es), last, fuel)
    ensures last.Some? && ReplacesWholeField(last.value) ==>
      Resolve(s, Obj(es), last, fuel + 1) == Ok(Resolved(last.value, last))
  {
  }

  /** Instance data whose string values hold no '!'. */
  ghost predicate BangFreeStrings(data: Value) {
    data.Obj? && forall e :: e in data.entries && e.value.Str? ==> Bangs(e.value.s) == 0
  }

  /** A field with a token holds at least one '!', and replacing the token
      by a string with no '!' removes at least one. */
  lemma SubstitutionRemovesBang(s: string, m: Match, t: string)
    requires Search(s) == Some(m)
    requires Bangs(t) == 0
    ensures |m.text| > 0 && Bangs(s) >= 1
    ensures Bangs(ReplaceAll(s, m.text, t)) < Bangs(s)
  {
    SearchSpec(s);
    MatchText(s, m);
    assert OccursAt(s, m.text, m.start);
    ReplaceBangs(s, m.text, t);
  }

  /** A string found in bang-free instance data holds no '!'. */
  lemma LookupBangFree(data: Value, key: string, last: Option<Value>)
    requires BangFreeStrings(data)
    requires last.Some? && last.value.Str? ==> Bangs(last.value.s) == 0
    ensures var rv := LookupReplacement(data, key, last);
      rv.Ok? && (rv.value.Some? && rv.value.value.Str? ==> Bangs(rv.value.value.s) == 0)
  {
    if key in Keys(data.entries) {
      var v := Lookup(data.entries, key).value;
      var i :| 0 <= i < |data.entries| && data.entries[i] == Entry(key, v);
      assert data.entries[i] in data.entries;
    }
  }

  /** When no replacement string holds a '!', every substitution removes a
      '!', so the loop stops within as many iterations as the field has '!'. */
  lemma {:induction false} ResolveWithinFuel(s: string, data: Value, last: Option<Value>, fuel: nat)
    requires BangFreeStrings(data)
    requires last.Some? && last.value.Str? ==> Bangs(last.value.s) == 0
    requires Bangs(s) <= fuel
    ensures Resolve(s, data, last, fuel) != Err(OutOfFuel)
    decreases fuel
  {
    var m := Search(s);
    if m.Some? {
      var rv := LookupReplacement(data, m.value.key, last).value;
      if rv.Some? && rv.value.Str? && !ReplacesWholeField(rv.value) {
        var t := ReplaceAll(s, m.value.text, rv.value.s);
        SubstitutionFuel(s, data, last, fuel);
        ResolveWithinFuel(t, data, rv, fuel - 1);
        ResolveStep(s, data, last, fuel);
      } else {
        SubstitutionFuel(s, data, last, fuel);
        ResolveStep(s, data, last, fuel);
      }
    }
  }

  /** The facts one substitution needs: there is fuel for it, and the
      string it leaves has fewer '!' than the fuel that remains. */
  lemma SubstitutionFuel(s: string, data: Value, last: Option<Value>, fuel: nat)
    requires BangFreeStrings(data)
    requires last.Some? && last.value.Str? ==> Bangs(last.value.s) == 0
    requires Bangs(s) <= fuel
    requires Search(s).Some?
    ensures fuel > 0
    ensures var m := Search(s).value;
      var rv := LookupReplacement(data, m.key, last);
      && rv.Ok?
      && (rv.value.Some? && rv.value.value.Str? ==> Bangs(rv.value.value.s) == 0)
      && (rv.value.Some? && rv.value.value.Str? ==> Bangs(ReplaceAll(s, m.text, rv.value.value.s)) <= fuel - 1)
  {
    var m := Search(s).value;
    SubstitutionRemovesBang(s, m, "");
    LookupBangFree(data, m.key, last);
    var rv := LookupReplacement(data, m.key, last);
    if rv.value.Some? && rv.value.value.Str? {
      SubstitutionRemovesBang(s, m, rv.value.value.s);
    }
  }

  /** One iteration of the loop, for a field holding a token. */
  lemma ResolveStep(s: string, data: Value, last: Option<Value>, fuel: nat)
    requires Search(s).Some? && fuel > 0 && data.Obj?
    ensures var m := Search(s).value;
      var rv := LookupReplacement(data, m.key, last).value;
      Resolve(s, data, last, fuel) ==
        if rv.None? then Err(UnboundLocalError)
        else if ReplacesWholeField(rv.value) then Ok(Resolved(rv.value, rv))
        else if rv.value.Str? then Resolve(ReplaceAll(s, m.text, rv.value.s), data, rv, fuel - 1)
        else Err(TypeError)
  {
  }

  /** When the loop finishes with a string, no token is left in it. */
  lemma {:induction false} ResolveLeavesNoToken(s: string, data: Value, last: Option<Value>, fuel: nat)
    requires Resolve(s, data, last, fuel).Ok?
    ensures var v := Resolve(s, data, last, fuel).value.value;
      v.Str? ==> Search(v.s).None?
    decreases fuel
  {
    var m := Search(s);
    if m.Some? {
      var rv := LookupReplacement(data, m.value.key, last).value;
      if rv.Some? && rv.value.Str? && !ReplacesWholeField(rv.value) {
        var t := ReplaceAll(s, m.value.text, rv.value.s);
        assert Resolve(s, data, last, fuel) == Resolve(t, data, rv, fuel - 1);
        ResolveLeavesNoToken(t, data, rv, fuel - 1);
      }
    }
  }

  lemma ReplaceExample()
    ensures ReplaceAll("prefix-!Base64loop Foo-suffix", "!Base64loop Foo", "X") == "prefix-X-suffix"
  {
    assert "prefix-!Base64loop Foo-suffix" == "prefix-" + "!Base64loop Foo" + "-suffix";
    assert "prefix-X-suffix" == "prefix-" + "X" + "-suffix";
    ReplaceSingle("prefix-", "!Base64loop Foo", "-suffix", "X");
  }

  /** One substitution that leaves no token behind finishes the field. */
  lemma ResolveOnce(s: string, es: seq<Entry>, m: Match, t: string, out: string)
    requires Search(s) == Some(m)
    requires Lookup(es, m.key) == Some(Str(t))
    requires ReplaceAll(s, m.text, t) == out && Search(out) == None
    ensures Resolve(s, Obj(es), None, 1) == Ok(Resolved(Str(out), Some(Str(t))))
  {
    ResolveSubstitutes(s, es, None, 0, m, t);
  }

  /** "prefix-!Base64loop Foo-suffix" with {Foo: "X"} becomes "prefix-X-suffix". */
  lemma ExampleSubstitution()
    ensures Resolve("prefix-!Base64loop Foo-suffix", Obj([Entry("Foo", Str("X"))]), None, 1)
         == Ok(Resolved(Str("prefix-X-suffix"), Some(Str("X"))))
  {
    ExampleSearch();
    ReplaceExample();
    ExampleNoToken();
    ResolveOnce("prefix-!Base64loop Foo-suffix", [Entry("Foo", Str("X"))], Match(7, 22, "!Base64loop Foo", "Foo"), "X", "prefix-X-suffix");
  }

  lemma ExampleNoToken()
    ensures Search("prefix-X-suffix") == None
  {
    NoBangNoMatch("prefix-X-suffix");
  }

  lemma ExampleSearch()
    ensures Search("prefix-!Base64loop Foo-suffix") == Some(Match(7, 22, "!Base64loop Foo", "Foo"))
  {
    assert "prefix-!Base64loop Foo-suffix" == "prefix-" + Prefix + "Foo" + "-suffix";
    assert Prefix + "Foo" == "!Base64loop Foo";
    SearchToken("prefix-", Prefix, "Foo", "-suffix");
  }

  /** "!Base64loop Count" with {Count: 3} becomes the integer 3. */
  lemma ExampleWholeField()
    ensures Resolve("!Base64loop Count", Obj([Entry("Count", Int(3))]), None, 1) == Ok(Resolved(Int(3), Some(Int(3))))
  {
    var s := "!Base64loop Count";
    assert s[0..12] == Prefix;
    assert TokenAt(s, 0);
    assert WordEnd(s, 12) == 17;
    assert s[0..17] == s && s[12..17] == "Count";
    assert Search(s) == Some(Match(0, 17, s, "Count"));
  }

  /** The prefix is matched ignoring case, the key is looked up as written:
      "!BASE64LOOP foo" finds no "Foo" and, with no earlier replacement, raises. */
  lemma ExampleCaseRules()
    ensures Resolve("!BASE64LOOP foo", Obj([Entry("foo", Str("x"))]), None, 1) == Ok(Resolved(Str("x"), Some(Str("x"))))
    ensures Resolve("!BASE64LOOP foo", Obj([Entry("Foo", Str("x"))]), None, 1) == Err(UnboundLocalError)
  {
    var s := "!BASE64LOOP foo";
    assert forall k :: 0 <= k < |Prefix| ==> SameIgnoringCase(s[k], Prefix[k]);
    assert TokenAt(s, 0);
    assert WordEnd(s, 12) == 15;
    assert s[0..15] == s && s[12..15] == "foo";
    assert Search(s) == Some(Match(0, 15, s, "foo"));
    assert s + "" == s;
    ReplaceFront(s, "", "x");
    assert ReplaceAll("", s, "x") == "";
    assert ReplaceAll(s, s, "x") == "x";
    NoBangNoMatch("x");
  }

  // ---------------------------------------------------------------------
  // The shape of walk_resource's result

  /** A bare string comes back as it is, even one holding a token; any other
      value that is not a mapping raises AttributeError. */
  lemma WalkNonMapping(v: Value, data: Value, fuel: nat)
    requires !v.Obj?
    ensures IsBareString(v) ==> Walk(v, data, fuel) == Ok(v)
    ensures !IsBareString(v) ==> Walk(v, data, fuel) == Err(AttributeError)
  {
  }

  /** The keys walk_resource keeps, in order: all but those holding a list. */
  function KeptKeys(es: seq<Entry>): (ks: seq<string>)
    ensures forall k :: k in ks ==> k in Keys(es)
  {
    if es == [] then []
    else (if es[0].value.List? then [] else [es[0].key]) + KeptKeys(es[1..])
  }

  predicate IsPlainScalar(v: Value) {
    v.Null? || v.Bool? || v.Int? || v.Opaque?
  }

  /** What the result r holds for the input entry e: a mapping walked
      recursively, a string with no token left or replaced as a whole, any
      other scalar as it was. (A list-valued key is absent from r.) */
  ghost predicate EntryWalked(r: seq<Entry>, e: Entry, data: Value, fuel: nat) {
    match e.value
    case List(_) => true
    case Obj(_) => Walk(e.value, data, fuel).Ok? && Lookup(r, e.key) == Some(Walk(e.value, data, fuel).value)
    case Str(_) =>
      Lookup(r, e.key).Some? &&
      var v := Lookup(r, e.key).value;
      (v.Str? ==> Search(v.s).None?) && (!v.Str? ==> ReplacesWholeField(v))
    case _ => Lookup(r, e.key) == Some(e.value)
  }

  /** One step of the loop on the entry e, when it succeeds: the key is
      appended unless it holds a list, and the result describes e. */
  lemma WalkEntryShape(e: Entry, data: Value, st: Walked, fuel: nat, st': Walked)
    requires e.key !in Keys(st.out)
    requires WalkEntry(e, data, st, fuel) == Ok(st')
    ensures e.value.List? ==> st'.out == st.out
    ensures !e.value.List? ==> Lookup(st'.out, e.key).Some?
    ensures !e.value.List? ==> st'.out == st.out + [Entry(e.key, Lookup(st'.out, e.key).value)]
    ensures !e.value.List? ==> EntryWalked([Entry(e.key, Lookup(st'.out, e.key).value)], e, data, fuel)
  {
    if !e.value.List? {
      var w := EntryOutput(e, data, st, fuel, st');
      assert Lookup([Entry(e.key, w)], e.key) == Some(w);
      if e.value.Str? {
        ResolveLeavesNoToken(e.value.s, data, st.last, fuel);
      }
    }
  }

  /** A step on an entry that does not hold a list appends one entry for its key. */
  lemma EntryOutput(e: Entry, data: Value, st: Walked, fuel: nat, st': Walked) returns (w: Value)
    requires e.key !in Keys(st.out) && !e.value.List?
    requires WalkEntry(e, data, st, fuel) == Ok(st')
    ensures st'.out == st.out + [Entry(e.key, w)] && Lookup(st'.out, e.key) == Some(w)
    ensures e.value.Obj? ==> Walk(e.value, data, fuel) == Ok(w)
    ensures e.value.Str? ==> Resolve(e.value.s, data, st.last, fuel).Ok? && Resolve(e.value.s, data, st.last, fuel).value.value == w
    ensures !e.value.Obj? && !e.value.Str? ==> w == e.value
  {
    if e.value.Obj? {
      w := Walk(e.value, data, fuel).value;
    } else if e.value.Str? {
      w := Resolve(e.value.s, data, st.last, fuel).value.value;
    } else {
      w := e.value;
    }
    assert st'.out == Put(st.out, e.key, w);
  }

  /** EntryWalked only looks at the entry's own key, which Lookup finds in
      front of anything appended later. */
  lemma EntryWalkedExtend(out: seq<Entry>, w: Value, e: Entry, data: Value, fuel: nat, rest: seq<Entry>)
    requires e.key !in Keys(out)
    requires EntryWalked([Entry(e.key, w)], e, data, fuel)
    ensures EntryWalked(out + [Entry(e.key, w)] + rest, e, data, fuel)
  {
    LookupAppend(out, e.key, w, rest);
    LookupAppend([], e.key, w, []);
    assert [] + [Entry(e.key, w)] + [] == [Entry(e.key, w)];
  }

  /** The conclusions of WalkEntriesShape for es, from those for es[1..]. */
  lemma ShapeHead(es: seq<Entry>, data: Value, fuel: nat, out: seq<Entry>, out': seq<Entry>, w: Value, r: seq<Entry>)
    requires es != [] && es[0].key !in Keys(out)
    requires es[0].value.List? ==> out' == out
    requires !es[0].value.List? ==> out' == out + [Entry(es[0].key, w)] && EntryWalked([Entry(es[0].key, w)], es[0], data, fuel)
    requires Keys(r) == Keys(out') + KeptKeys(es[1..])
    requires |out'| <= |r| && r[..|out'|] == out'
    requires forall j :: 0 <= j < |es[1..]| ==> EntryWalked(r, es[1..][j], data, fuel)
    ensures Keys(r) == Keys(out) + KeptKeys(es)
    ensures |out| <= |r| && r[..|out|] == out
    ensures forall j :: 0 <= j < |es| ==> EntryWalked(r, es[j], data, fuel)
  {
    var e := es[0];
    if e.value.List? {
      assert KeptKeys(es) == KeptKeys(es[1..]);
    } else {
      KeptKeysAppend(es, out, w);
      PrefixSplit(out, Entry(e.key, w), r);
      EntryWalkedExtend(out, w, e, data, fuel, r[|out'|..]);
    }
    EntriesAfterHead(es, data, fuel, r);
  }

  lemma KeptKeysAppend(es: seq<Entry>, out: seq<Entry>, w: Value)
    requires es != [] && !es[0].value.List?
    ensures Keys(out + [Entry(es[0].key, w)]) + KeptKeys(es[1..]) == Keys(out) + KeptKeys(es)
  {
    KeysAppend(out, [Entry(es[0].key, w)]);
    assert KeptKeys(es) == [es[0].key] + KeptKeys(es[1..]);
  }

  lemma PrefixSplit(out: seq<Entry>, e: Entry, r: seq<Entry>)
    requires |out| + 1 <= |r| && r[..|out| + 1] == out + [e]
    ensures r == out + [e] + r[|out| + 1..]
    ensures r[..|out|] == out
  {
    assert r == r[..|out| + 1] + r[|out| + 1..];
    assert r[..|out|] == r[..|out| + 1][..|out|];
  }

  lemma {:induction false} WalkEntriesShape(es: seq<Entry>, data: Value, st: Walked, fuel: nat, r: seq<Entry>)
    requires Distinct(Keys(st.out) + Keys(es))
    requires WalkEntries(es, data, st, fuel) == Ok(r)
    ensures Keys(r) == Keys(st.out) + KeptKeys(es)
    ensures |st.out| <= |r| && r[..|st.out|] == st.out
    ensures forall j :: 0 <= j < |es| ==> EntryWalked(r, es[j], data, fuel)
    decreases es
  {
    if es == [] {
      assert Keys(st.out) + [] == Keys(st.out);
    } else {
      WalkEntriesStep(es, data, st, fuel);
      var st' := WalkEntry(es[0], data, st, fuel).value;
      DistinctShift(st.out, es);
      WalkEntryShape(es[0], data, st, fuel, st');
      var w := if es[0].value.List? then Null else Lookup(st'.out, es[0].key).value;
      StepDistinct(st.out, es, st'.out, w);
      WalkEntriesShape(es[1..], data, st', fuel, r);
      ShapeHead(es, data, fuel, st.out, st'.out, w, r);
    }
  }

  /** Helper: the facts about es[1..] are the facts about es from index 1. */
  lemma EntriesAfterHead(es: seq<Entry>, data: Value, fuel: nat, r: seq<Entry>)
    requires es != []
    requires EntryWalked(r, es[0], data, fuel)
    requires forall j :: 0 <= j < |es[1..]| ==> EntryWalked(r, es[1..][j], data, fuel)
    ensures forall j :: 0 <= j < |es| ==> EntryWalked(r, es[j], data, fuel)
  {
    forall j | 0 <= j < |es| ensures EntryWalked(r, es[j], data, fuel) {
      if j > 0 {
        assert es[j] == es[1..][j - 1];
      }
    }
  }

  /** walk_resource on a mapping keeps the keys that do not hold a list, in
      their original order, and gives each the value EntryWalked describes. */
  lemma WalkShape(es: seq<Entry>, data: Value, fuel: nat)
    requires Distinct(Keys(es))
    requires Walk(Obj(es), data, fuel).Ok?
    ensures Walk(Obj(es), data, fuel).value.Obj?
    ensures Keys(Walk(Obj(es), data, fuel).value.entries) == KeptKeys(es)
    ensures forall j :: 0 <= j < |es| ==> EntryWalked(Walk(Obj(es), data, fuel).value.entries, es[j], data, fuel)
  {
    var r := WalkEntries(es, data, Walked(None, []), fuel).value;
    assert Keys([]) + Keys(es) == Keys(es);
    WalkEntriesShape(es, data, Walked(None, []), fuel, r);
    assert Keys([]) + KeptKeys(es) == KeptKeys(es);
  }

  /** A list item that is neither a mapping nor a bare string raises, even
      though the walked list is then dropped. */
  lemma {:induction false} WalkItemsRejects(items: seq<Value>, k: nat, data: Value, fuel: nat)
    requires k < |items| && !items[k].Obj? && !IsBareString(items[k])
    ensures WalkItems(items, data, fuel).Err?
    decreases items
  {
    if k > 0 && Walk(items[0], data, fuel).Ok? {
      WalkItemsRejects(items[1..], k - 1, data, fuel);
    }
  }

  lemma {:induction false} WalkEntriesRejects(es: seq<Entry>, j: nat, k: nat, data: Value, st: Walked, fuel: nat)
    requires j < |es| && BadListItem(es[j], k)
    ensures WalkEntries(es, data, st, fuel).Err?
    decreases es
  {
    var step := WalkEntry(es[0], data, st, fuel);
    if j == 0 {
      WalkEntryRejects(es[0], k, data, st, fuel);
      HeadFails(es, data, st, fuel);
    } else if step.Err? {
      HeadFails(es, data, st, fuel);
    } else {
      TailIndex(es, j);
      WalkEntriesRejects(es[1..], j - 1, k, data, step.value, fuel);
      HeadPasses(es, data, st, fuel, step.value);
    }
  }

  lemma HeadFails(es: seq<Entry>, data: Value, st: Walked, fuel: nat)
    requires es != [] && WalkEntry(es[0], data, st, fuel).Err?
    ensures WalkEntries(es, data, st, fuel).Err?
  {
  }

  lemma HeadPasses(es: seq<Entry>, data: Value, st: Walked, fuel: nat, st': Walked)
    requires es != [] && WalkEntry(es[0], data, st, fuel) == Ok(st')
    ensures WalkEntries(es, data, st, fuel) == WalkEntries(es[1..], data, st', fuel)
  {
  }

  /** Item k of the list field e is neither a mapping nor a bare string. */
  predicate BadListItem(e: Entry, k: nat) {
    e.value.List? && k < |e.value.items| && !e.value.items[k].Obj? && !IsBareString(e.value.items[k])
  }

  lemma WalkEntryRejects(e: Entry, k: nat, data: Value, st: Walked, fuel: nat)
    requires BadListItem(e, k)
    ensures WalkEntry(e, data, st, fuel).Err?
  {
    WalkItemsRejects(e.value.items, k, data, fuel);
  }

  /** One iteration of the loop over a non-empty mapping. */
  lemma WalkEntriesStep(es: seq<Entry>, data: Value, st: Walked, fuel: nat)
    requires es != []
    ensures WalkEntry(es[0], data, st, fuel).Err? ==>
      WalkEntries(es, data, st, fuel) == Err(WalkEntry(es[0], data, st, fuel).error)
    ensures WalkEntry(es[0], data, st, fuel).Ok? ==>
      WalkEntries(es, data, st, fuel) == WalkEntries(es[1..], data, WalkEntry(es[0], data, st, fuel).value, fuel)
  {
  }

  /** A list field holding an item that is neither a mapping nor a bare
      string makes walk_resource raise. */
  lemma WalkRejectsListItem(es: seq<Entry>, j: nat, k: nat, data: Value, fuel: nat)
    requires j < |es| && es[j].value.List?
    requires k < |es[j].value.items| && !es[j].value.items[k].Obj? && !IsBareString(es[j].value.items[k])
    ensures Walk(Obj(es), data, fuel).Err?
  {
    WalkEntriesRejects(es, j, k, data, Walked(None, []), fuel);
  }
}
