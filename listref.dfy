/**
  list_resource: the fan-in rewriter. It copies one resource mapping and
  replaces every field that holds exactly "!Base64loopArn" or
  "!Base64loopRef" by a list with one entry per generated instance name.
  The functions give the meaning; ListResource, ListList and BuildRefList
  are the step-by-step code, proved to compute it.
 */
module ListRef {
  import opened Values

  const ArnSentinel: string := "!Base64loopArn"
  const RefSentinel: string := "!Base64loopRef"

  /** Which kind of reference a sentinel asks for. */
  datatype RefKind = Arn | Ref

  /** One reference to the instance called n: `{"Fn::GetAtt": "n.Arn"}` or `{"Ref": "n"}`. */
  function RefEntry(n: string, kind: RefKind): (r: Value)
    ensures r.Obj? && |r.entries| == 1
    ensures kind == Arn ==> r.entries[0].key == "Fn::GetAtt" && r.entries[0].value == Str(n + ".Arn")
    ensures kind == Ref ==> r.entries[0].key == "Ref" && r.entries[0].value == Str(n)
  {
    match kind
    case Arn => Obj([Entry("Fn::GetAtt", Str(n + ".Arn"))])
    case Ref => Obj([Entry("Ref", Str(n))])
  }

  /** The list a sentinel expands to: one reference per name, in order. */
  function References(names: seq<string>, kind: RefKind): (r: seq<Value>)
    ensures |r| == |names|
    ensures forall i :: 0 <= i < |names| ==> r[i] == RefEntry(names[i], kind)
  {
    if names == [] then [] else [RefEntry(names[0], kind)] + References(names[1..], kind)
  }

  /** list_resource(v, names): a string comes back as it is, a mapping is
      copied field by field, anything else raises AttributeError (on `.items()`). */
  function ListValue(v: Value, names: seq<string>): Result<Value>
    decreases v, 0
  {
    match v
    case Str(_) => Ok(v)
    case Obj(es) =>
      var out :- ListEntries(es, names, []);
      Ok(Obj(out))
    case _ => Err(AttributeError)
  }

  /** The new value of a field that held v: a mapping is passed to
      list_resource, a list is mapped item by item, a sentinel becomes the
      list of references, anything else is kept. */
  function ListField(v: Value, names: seq<string>): Result<Value>
    decreases v, 1
  {
    match v
    case Obj(_) => ListValue(v, names)
    case List(items) =>
      var vs :- ListItems(items, names);
      Ok(List(vs))
    case Str(s) =>
      if s == ArnSentinel then Ok(List(References(names, Arn)))
      else if s == RefSentinel then Ok(List(References(names, Ref)))
      else Ok(v)
    case _ => Ok(v)
  }

  /** The `for key, value in resource.items()` loop from the entries es on,
      with `new_resource` out so far: every key is assigned its new value. */
  function ListEntries(es: seq<Entry>, names: seq<string>, out: seq<Entry>): Result<seq<Entry>>
    decreases es
  {
    if es == [] then Ok(out)
    else
      var v :- ListField(es[0].value, names);
      ListEntries(es[1..], names, Put(out, es[0].key, v))
  }

  /** The list branch: every item is passed to list_resource, in order. */
  function ListItems(items: seq<Value>, names: seq<string>): (r: Result<seq<Value>>)
    ensures r.Ok? ==> |r.value| == |items|
    decreases items
  {
    if items == [] then Ok([])
    else
      var v :- ListValue(items[0], names);
      var rest :- ListItems(items[1..], names);
      Ok([v] + rest)
  }

  // ---------------------------------------------------------------------
  // The code, step by step

  /** The `for loopresource in map_data: newvalue.append(...)` loops. */
  method BuildRefList(names: seq<string>, kind: RefKind) returns (r: seq<Value>)
    ensures r == References(names, kind)
  {
    r := [];
    for i := 0 to |names|
      invariant |r| == i
      invariant forall j :: 0 <= j < i ==> r[j] == RefEntry(names[j], kind)
    {
      r := r + [RefEntry(names[i], kind)];
    }
    assert forall j :: 0 <= j < |names| ==> r[j] == References(names, kind)[j];
  }

  /** list_resource. */
  method ListResource(resource: Value, names: seq<string>) returns (r: Result<Value>)
    ensures r == ListValue(resource, names)
    decreases resource
  {
    if resource.Str? {
      return Ok(resource);
    }
    if !resource.Obj? {
      return Err(AttributeError);
    }
    var es := resource.entries;
    var newResource: seq<Entry> := [];
    for i := 0 to |es|
      invariant ListEntries(es[i..], names, newResource) == ListEntries(es, names, [])
    {
      var key, value := es[i].key, es[i].value;
      ghost var field := ListField(value, names);
      assert es[i..][0] == es[i] && es[i..][1..] == es[i + 1..];
      assert field.Err? ==> ListEntries(es[i..], names, newResource) == Err(field.error);
      assert field.Ok? ==> ListEntries(es[i..], names, newResource) == ListEntries(es[i + 1..], names, Put(newResource, key, field.value));
      var newValue := value;
      match value {
        case Obj(_) =>
          var v := ListResource(value, names);
          if v.Err? {
            return Err(v.error);
          }
          newValue := v.value;
        case List(items) =>
          var vs := ListList(items, names);
          if vs.Err? {
            return Err(vs.error);
          }
          newValue := List(vs.value);
        case Str(s) =>
          if s == ArnSentinel {
            var refs := BuildRefList(names, Arn);
            newValue := List(refs);
          } else if s == RefSentinel {
            var refs := BuildRefList(names, Ref);
            newValue := List(refs);
          }
        case _ =>
      }
      assert field == Ok(newValue);
      newResource := Put(newResource, key, newValue);
    }
    assert es[|es|..] == [];
    return Ok(Obj(newResource));
  }

  /** The inner `for listitem in value` loop of the list branch. */
  method ListList(items: seq<Value>, names: seq<string>) returns (r: Result<seq<Value>>)
    ensures r == ListItems(items, names)
    decreases items
  {
    var built: seq<Value> := [];
    assert items[0..] == items;
    PrependEmpty(ListItems(items, names));
    for j := 0 to |items|
      invariant ListItems(items, names) == Prepend(built, ListItems(items[j..], names))
    {
      assert items[j..][0] == items[j] && items[j..][1..] == items[j + 1..];
      var v := ListResource(items[j], names);
      if v.Err? {
        return Err(v.error);
      }
      ghost var rest := ListItems(items[j + 1..], names);
      assert ListItems(items[j..], names) == Prepend([v.value], rest);
      PrependPrepend(built, [v.value], rest);
      built := built + [v.value];
    }
    assert items[|items|..] == [];
    assert built + [] == built;
    return Ok(built);
  }

  // ---------------------------------------------------------------------
  // The shape of list_resource's result

  /** A string argument, even a sentinel, comes back as it is; any other
      value that is not a mapping raises AttributeError. */
  lemma ListNonMapping(v: Value, names: seq<string>)
    requires !v.Obj?
    ensures v.Str? ==> ListValue(v, names) == Ok(v)
    ensures !v.Str? ==> ListValue(v, names) == Err(AttributeError)
  {
  }

  /** The list branch maps list_resource over the items: it succeeds exactly
      when every item does, and then item i becomes list_resource of item i. */
  lemma {:induction false} ListItemsPointwise(items: seq<Value>, names: seq<string>)
    ensures ListItems(items, names).Ok? <==> forall i :: 0 <= i < |items| ==> ListValue(items[i], names).Ok?
    ensures ListItems(items, names).Ok? ==>
      forall i :: 0 <= i < |items| ==> ListItems(items, names).value[i] == ListValue(items[i], names).value
    decreases items
  {
    if items != [] {
      ListItemsPointwise(items[1..], names);
      forall i | 0 < i < |items| ensures items[i] == items[1..][i - 1] {
      }
    }
  }

  /** The fields of a mapping, each with its new value, in order. */
  function ListedEntries(es: seq<Entry>, names: seq<string>): (r: Result<seq<Entry>>)
    ensures r.Ok? ==> |r.value| == |es|
  {
    if es == [] then Ok([])
    else
      var v :- ListField(es[0].value, names);
      var rest :- ListedEntries(es[1..], names);
      Ok([Entry(es[0].key, v)] + rest)
  }

  /** With distinct keys every assignment of the loop appends, so the loop
      yields what it had before followed by the fields with their new values. */
  lemma {:induction false} ListEntriesAppend(es: seq<Entry>, names: seq<string>, out: seq<Entry>)
    requires Distinct(Keys(out) + Keys(es))
    ensures ListEntries(es, names, out) == Prepend(out, ListedEntries(es, names))
    decreases es
  {
    if es == [] {
      assert out + [] == out;
    } else {
      var e := es[0];
      ListEntriesStep(es, names, out);
      var f := ListField(e.value, names);
      if f.Ok? {
        var out' := out + [Entry(e.key, f.value)];
        StepDistinct(out, es, out', f.value);
        assert Put(out, e.key, f.value) == out';
        ListEntriesAppend(es[1..], names, out');
        var rest := ListedEntries(es[1..], names);
        assert ListedEntries(es, names) == Prepend([Entry(e.key, f.value)], rest);
        PrependPrepend(out, [Entry(e.key, f.value)], rest);
      }
    }
  }

  /** Field i of the result is field i of the input with its new value. */
  lemma {:induction false} ListedPointwise(es: seq<Entry>, names: seq<string>)
    requires ListedEntries(es, names).Ok?
    ensures forall i :: 0 <= i < |es| ==>
      ListField(es[i].value, names).Ok? && ListedEntries(es, names).value[i] == Entry(es[i].key, ListField(es[i].value, names).value)
    decreases es
  {
    if es != [] {
      ListedPointwise(es[1..], names);
      forall i | 0 < i < |es| ensures es[i] == es[1..][i - 1] {
      }
    }
  }

  /** list_resource on a mapping keeps every key in its place and gives it
      the new value ListField describes. */
  lemma ListShape(es: seq<Entry>, names: seq<string>, r: seq<Entry>)
    requires Distinct(Keys(es))
    requires ListValue(Obj(es), names) == Ok(Obj(r))
    ensures Keys(r) == Keys(es)
    ensures forall j :: 0 <= j < |es| ==> ListField(es[j].value, names) == Ok(r[j].value)
  {
    ListedFromLoop(es, names);
    ListedPointwise(es, names);
  }

  /** Started from an empty mapping, the loop yields exactly the listed fields. */
  lemma ListedFromLoop(es: seq<Entry>, names: seq<string>)
    requires Distinct(Keys(es))
    ensures ListEntries(es, names, []) == ListedEntries(es, names)
  {
    assert Keys([]) + Keys(es) == Keys(es);
    ListEntriesAppend(es, names, []);
    PrependEmpty(ListedEntries(es, names));
  }

  /** A field holding exactly a sentinel becomes the list of references to
      the names, one per name and in their order; every other string field,
      and every number, boolean or null, keeps its value. */
  lemma SentinelExpanded(es: seq<Entry>, names: seq<string>, r: seq<Entry>, j: nat)
    requires Distinct(Keys(es))
    requires ListValue(Obj(es), names) == Ok(Obj(r))
    requires j < |es|
    ensures |r| == |es| && r[j].key == es[j].key
    ensures es[j].value == Str(ArnSentinel) ==> r[j].value == List(References(names, Arn))
    ensures es[j].value == Str(RefSentinel) ==> r[j].value == List(References(names, Ref))
    ensures !es[j].value.Obj? && !es[j].value.List? && es[j].value != Str(ArnSentinel) && es[j].value != Str(RefSentinel) ==>
      r[j].value == es[j].value
  {
    ListShape(es, names, r);
    assert ListField(es[j].value, names) == Ok(r[j].value);
    assert Keys(r)[j] == Keys(es)[j];
    assert RefSentinel != ArnSentinel by {
      assert RefSentinel[11] != ArnSentinel[11];
    }
  }

  /** One iteration of the loop over a non-empty mapping. */
  lemma ListEntriesStep(es: seq<Entry>, names: seq<string>, out: seq<Entry>)
    requires es != []
    ensures ListField(es[0].value, names).Err? ==>
      ListEntries(es, names, out) == Err(ListField(es[0].value, names).error)
    ensures ListField(es[0].value, names).Ok? ==>
      ListEntries(es, names, out) == ListEntries(es[1..], names, Put(out, es[0].key, ListField(es[0].value, names).value))
  {
  }

  /** A field whose new value raises makes the whole loop raise. */
  lemma {:induction false} ListEntriesRejects(es: seq<Entry>, j: nat, names: seq<string>, out: seq<Entry>)
    requires j < |es| && ListField(es[j].value, names).Err?
    ensures ListEntries(es, names, out).Err?
    decreases es
  {
    ListEntriesStep(es, names, out);
    if j > 0 && ListField(es[0].value, names).Ok? {
      TailIndex(es, j);
      ListEntriesRejects(es[1..], j - 1, names, Put(out, es[0].key, ListField(es[0].value, names).value));
    }
  }

  /** A list field holding an item that is neither a mapping nor a string
      makes list_resource raise. */
  lemma ListRejectsListItem(es: seq<Entry>, j: nat, k: nat, names: seq<string>)
    requires j < |es| && es[j].value.List?
    requires k < |es[j].value.items| && !es[j].value.items[k].Obj? && !es[j].value.items[k].Str?
    ensures ListValue(Obj(es), names).Err?
  {
    ListItemsPointwise(es[j].value.items, names);
    assert ListValue(es[j].value.items[k], names).Err?;
    ListEntriesRejects(es, j, names, []);
  }
}
