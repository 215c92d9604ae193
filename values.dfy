/**
  The JSON-like document tree the macro rewrites: mappings with ordered,
  string keys, lists and scalars, plus the error kinds the Python code can
  raise while walking it. A mapping is a sequence of entries; its order is
  the insertion order of a Python dict, and assigning to a key follows
  Python's dict semantics (see Put).
 */
module Values {

  datatype Option<+T> = None | Some(value: T)

  /** The Python exceptions the modelled code can raise. */
  datatype Error =
    | KeyError(key: Value)
    | TypeError
    | AttributeError
    | UnboundLocalError
    | DecodeError
    | IndexError
      /** the substitution loop did not finish within its fuel (Python would keep looping) */
    | OutOfFuel

  datatype Result<+T> = Ok(value: T) | Err(error: Error) {
    predicate IsFailure() { Err? }
    function PropagateFailure<U>(): Result<U>
      requires Err?
    {
      Err(error)
    }
    function Extract(): T
      requires Ok?
    {
      value
    }
  }

  /** A node of the template: Opaque stands for a float, kept by its literal. */
  datatype Value =
    | Null
    | Bool(b: bool)
    | Int(i: int)
    | Opaque(repr: string)
    | Str(s: string)
    | List(items: seq<Value>)
    | Obj(entries: seq<Entry>)

  datatype Entry = Entry(key: string, value: Value)

  /** The keys of a mapping, in order. */
  function Keys(es: seq<Entry>): (ks: seq<string>)
    ensures |ks| == |es|
    ensures forall i :: 0 <= i < |es| ==> ks[i] == es[i].key
  {
    if es == [] then [] else [es[0].key] + Keys(es[1..])
  }

  /** A Python dict never holds a key twice. */
  predicate Distinct(ks: seq<string>) {
    forall i, j :: 0 <= i < j < |ks| ==> ks[i] != ks[j]
  }

  /** `d[k]` on a dict: the value of the first entry with key k. */
  function Lookup(es: seq<Entry>, k: string): (r: Option<Value>)
    ensures r.None? <==> k !in Keys(es)
    ensures r.Some? ==> exists i :: 0 <= i < |es| && es[i] == Entry(k, r.value)
  {
    if es == [] then None
    else if es[0].key == k then Some(es[0].value)
    else Lookup(es[1..], k)
  }

  /** `d[k] = v` on a dict: an existing key keeps its position and takes the
      new value; a new key is appended at the end. */
  function Put(es: seq<Entry>, k: string, v: Value): (r: seq<Entry>)
    ensures k !in Keys(es) ==> r == es + [Entry(k, v)]
    ensures k in Keys(es) ==> Keys(r) == Keys(es)
    ensures Lookup(r, k) == Some(v)
  {
    if es == [] then [Entry(k, v)]
    else if es[0].key == k then [Entry(k, v)] + es[1..]
    else [es[0]] + Put(es[1..], k, v)
  }

  /** Assigning one key leaves what the other keys map to as it was. */
  lemma {:induction false} PutOther(es: seq<Entry>, k: string, v: Value, j: string)
    requires j != k
    ensures Lookup(Put(es, k, v), j) == Lookup(es, j)
  {
    if es != [] && es[0].key != k {
      PutOther(es[1..], k, v, j);
    }
  }

  /** `del d[k]` on a dict whose key k may or may not be present. */
  function Remove(es: seq<Entry>, k: string): (r: seq<Entry>)
    ensures k !in Keys(r)
    ensures k !in Keys(es) ==> r == es
    ensures forall j :: j != k ==> Lookup(r, j) == Lookup(es, j)
  {
    if es == [] then []
    else if es[0].key == k then Remove(es[1..], k)
    else [es[0]] + Remove(es[1..], k)
  }

  /** Deleting a key keeps the remaining keys distinct. */
  lemma {:induction false} RemoveDistinct(es: seq<Entry>, k: string)
    requires Distinct(Keys(es))
    ensures Distinct(Keys(Remove(es, k)))
  {
    if es != [] {
      assert Keys(es[1..]) == Keys(es)[1..];
      RemoveDistinct(es[1..], k);
      if es[0].key != k {
        var r := Remove(es[1..], k);
        assert Lookup(r, es[0].key) == Lookup(es[1..], es[0].key) == None;
        assert Keys([es[0]] + r) == [es[0].key] + Keys(r);
      }
    }
  }

  /** `del d[k]` keeps the order of what remains: with distinct keys,
      deleting entry i's key takes out exactly entry i. */
  lemma {:induction false} RemoveAt(es: seq<Entry>, i: nat)
    requires Distinct(Keys(es)) && i < |es|
    ensures Remove(es, es[i].key) == es[..i] + es[i + 1..]
  {
    DistinctTail(es);
    if i == 0 {
      assert es[..0] + es[1..] == es[1..];
    } else {
      assert Keys(es)[0] != Keys(es)[i];
      TailIndex(es, i);
      RemoveAt(es[1..], i - 1);
      ConsSplice(es, i);
    }
  }

  lemma DistinctTail(es: seq<Entry>)
    requires es != [] && Distinct(Keys(es))
    ensures es[0].key !in Keys(es[1..]) && Distinct(Keys(es[1..]))
  {
    assert Keys(es[1..]) == Keys(es)[1..];
    forall j | 0 <= j < |es[1..]| ensures Keys(es[1..])[j] != es[0].key {
      assert Keys(es)[j + 1] != Keys(es)[0];
    }
  }

  lemma ConsSplice<T>(s: seq<T>, i: nat)
    requires 0 < i < |s|
    ensures [s[0]] + (s[1..][..i - 1] + s[1..][i..]) == s[..i] + s[i + 1..]
  {
  }

  /** In a dict with distinct keys, looking up the key of entry i finds entry i. */
  lemma {:induction false} LookupDistinct(es: seq<Entry>, i: nat)
    requires Distinct(Keys(es)) && i < |es|
    ensures Lookup(es, es[i].key) == Some(es[i].value)
  {
    if i > 0 {
      assert Keys(es)[0] != Keys(es)[i];
      assert Keys(es[1..]) == Keys(es)[1..];
      LookupDistinct(es[1..], i - 1);
    }
  }

  /** Lookup finds the first entry, so anything after it does not matter. */
  lemma {:induction false} LookupAppend(es: seq<Entry>, k: string, v: Value, rest: seq<Entry>)
    requires k !in Keys(es)
    ensures Lookup(es + [Entry(k, v)] + rest, k) == Some(v)
  {
    if es != [] {
      assert (es + [Entry(k, v)] + rest)[1..] == es[1..] + [Entry(k, v)] + rest;
      assert Keys(es[1..]) == Keys(es)[1..];
      LookupAppend(es[1..], k, v, rest);
    }
  }

  /** Assigning a key the value it already has leaves the dict as it was. */
  lemma {:induction false} PutExisting(es: seq<Entry>, i: nat)
    requires Distinct(Keys(es)) && i < |es|
    ensures Put(es, es[i].key, es[i].value) == es
  {
    if i > 0 {
      assert Keys(es)[0] != Keys(es)[i];
      assert Keys(es[1..]) == Keys(es)[1..];
      PutExisting(es[1..], i - 1);
      assert [es[0]] + es[1..] == es;
    }
  }

  /** Dropping the first of the keys that follow a, keeps a + b distinct,
      and that key was not among a. */
  lemma DistinctDrop(a: seq<string>, b: seq<string>)
    requires b != [] && Distinct(a + b)
    ensures b[0] !in a
    ensures Distinct(a + b[1..])
  {
    var all := a + b;
    forall i | 0 <= i < |a| ensures a[i] != b[0] {
      assert all[i] == a[i] && all[|a|] == b[0];
    }
    var ks := a + b[1..];
    forall i, j | 0 <= i < j < |ks| ensures ks[i] != ks[j] {
      var x := if i < |a| then i else i + 1;
      var y := if j < |a| then j else j + 1;
      assert ks[i] == all[x];
      assert ks[j] == all[y];
    }
  }

  /** If the keys of two sequences are distinct when joined, the head of the
      second is not among the first, and the rest joins distinctly too. */
  lemma DistinctShift(out: seq<Entry>, es: seq<Entry>)
    requires es != [] && Distinct(Keys(out) + Keys(es))
    ensures es[0].key !in Keys(out)
    ensures Distinct(Keys(out) + Keys(es[1..]))
  {
    assert Keys(es)[1..] == Keys(es[1..]);
    DistinctDrop(Keys(out), Keys(es));
  }

  /** One step keeps the keys still to come distinct from those written:
      out' is out, or out with one entry for the key of es[0] appended. */
  lemma StepDistinct(out: seq<Entry>, es: seq<Entry>, out': seq<Entry>, w: Value)
    requires es != [] && Distinct(Keys(out) + Keys(es))
    requires out' == out || out' == out + [Entry(es[0].key, w)]
    ensures es[0].key !in Keys(out)
    ensures Distinct(Keys(out') + Keys(es[1..]))
  {
    DistinctShift(out, es);
    if out' != out {
      AppendKeys(out, es, w);
    }
  }

  lemma AppendKeys(out: seq<Entry>, es: seq<Entry>, w: Value)
    requires es != []
    ensures Keys(out + [Entry(es[0].key, w)]) + Keys(es[1..]) == Keys(out) + Keys(es)
  {
    KeysAppend(out, [Entry(es[0].key, w)]);
    assert Keys(es) == [es[0].key] + Keys(es[1..]);
  }

  lemma KeysAppend(a: seq<Entry>, b: seq<Entry>)
    ensures Keys(a + b) == Keys(a) + Keys(b)
  {
  }

  /** `r` with `done` put in front of its value: the result of a list loop
      that has already built done. */
  function Prepend<T>(done: seq<T>, r: Result<seq<T>>): Result<seq<T>> {
    match r
    case Ok(rest) => Ok(done + rest)
    case Err(e) => Err(e)
  }

  lemma PrependPrepend<T>(a: seq<T>, b: seq<T>, r: Result<seq<T>>)
    ensures Prepend(a, Prepend(b, r)) == Prepend(a + b, r)
  {
    if r.Ok? {
      assert a + (b + r.value) == (a + b) + r.value;
    }
  }


  /** Moving the head of s onto the end of a leaves the concatenation as it was. */
  lemma ConsAppend<T>(a: seq<T>, s: seq<T>)
    requires s != []
    ensures (a + [s[0]]) + s[1..] == a + s
  {
    assert s == [s[0]] + s[1..];
  }


  /** Assigning a key that is present keeps every key in its place and
      changes what no other key maps to. */
  lemma PutFrame(es: seq<Entry>, k: string, v: Value)
    requires k in Keys(es)
    ensures Keys(Put(es, k, v)) == Keys(es)
    ensures forall j :: j != k ==> Lookup(Put(es, k, v), j) == Lookup(es, j)
  {
    forall j | j != k ensures Lookup(Put(es, k, v), j) == Lookup(es, j) {
      PutOther(es, k, v, j);
    }
  }


  /** Element j of s is element j - 1 of its tail. */
  lemma TailIndex<T>(s: seq<T>, j: nat)
    requires 0 < j < |s|
    ensures s[1..][j - 1] == s[j]
  {
  }


  /** The prefix of length i + 1 is the prefix of length i and element i. */
  lemma SliceSnoc<T>(s: seq<T>, i: nat)
    requires i < |s|
    ensures s[..i] + [s[i]] == s[..i + 1]
  {
  }

  /** PutExisting stated by key and value rather than by position: the
      form the whole-transform lemmas use. */
  lemma PutSame(es: seq<Entry>, k: string, v: Value)
    requires Distinct(Keys(es)) && Lookup(es, k) == Some(v)
    ensures Put(es, k, v) == es
  {
    var i :| 0 <= i < |es| && es[i] == Entry(k, v);
    PutExisting(es, i);
  }


  lemma PrependEmpty<T>(r: Result<seq<T>>)
    ensures Prepend([], r) == r
  {
    if r.Ok? {
      assert [] + r.value == r.value;
    }
  }

}
