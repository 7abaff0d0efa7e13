/** A submitted HTML form as the web framework hands it to a route: an ordered
    multimap of (key, value) pairs, in the order the browser sent them. */
module Forms {
  import opened Wrappers

  datatype Form = Form(entries: seq<(string, string)>)

  /** `form.getlist(k)`: every value sent under `k`, in submission order. */
  function GetList(f: Form, k: string): (vs: seq<string>)
    ensures |vs| <= |f.entries|
    ensures forall v :: v in vs <==> (k, v) in f.entries
    decreases |f.entries|
  {
    if f.entries == [] then []
    else
      var rest := GetList(Form(f.entries[1..]), k);
      assert forall v :: (k, v) in f.entries <==> f.entries[0] == (k, v) || (k, v) in f.entries[1..];
      if f.entries[0].0 == k then [f.entries[0].1] + rest else rest
  }

  /** `k in form`: the key was sent at least once, whatever its value. */
  predicate Contains(f: Form, k: string)
    ensures Contains(f, k) <==> exists v :: (k, v) in f.entries
  {
    exists i :: 0 <= i < |f.entries| && f.entries[i].0 == k
  }

  /** `form[k]`: the first value sent under `k`; None stands for the KeyError. */
  function Lookup(f: Form, k: string): (r: Option<string>)
    ensures r.None? <==> !Contains(f, k)
    ensures r.Some? ==> (k, r.value) in f.entries
    decreases |f.entries|
  {
    if f.entries == [] then None
    else if f.entries[0].0 == k then Some(f.entries[0].1)
    else
      var tail := Form(f.entries[1..]);
      assert Contains(f, k) ==> Contains(tail, k) by {
        if Contains(f, k) {
          var i :| 0 <= i < |f.entries| && f.entries[i].0 == k;
          assert tail.entries[i - 1].0 == k;
        }
      }
      assert Contains(tail, k) ==> Contains(f, k) by {
        if Contains(tail, k) {
          var i :| 0 <= i < |tail.entries| && tail.entries[i].0 == k;
          assert f.entries[i + 1].0 == k;
        }
      }
      Lookup(tail, k)
  }

  /** `form.get(k, default)`: the first value sent under `k`, or `default`. */
  function GetOr(f: Form, k: string, default: string): (r: string)
    ensures Contains(f, k) ==> (k, r) in f.entries && r == GetList(f, k)[0]
    ensures !Contains(f, k) ==> r == default
  {
    LookupIsHeadOfList(f, k);
    match Lookup(f, k)
    case Some(v) => v
    case None => default
  }

  /** `form[k]` is the head of `form.getlist(k)`, and fails exactly when that list is empty. */
  lemma {:induction false} LookupIsHeadOfList(f: Form, k: string)
    ensures Lookup(f, k) == (if GetList(f, k) == [] then None else Some(GetList(f, k)[0]))
    ensures Contains(f, k) <==> GetList(f, k) != []
    decreases |f.entries|
  {
    if f.entries != [] && f.entries[0].0 != k {
      LookupIsHeadOfList(Form(f.entries[1..]), k);
    }
  }

  /** The values of a form sent in two parts are those of the first part followed by those of
      the second: `getlist` keeps submission order and multiplicity. */
  lemma {:induction false} GetListAppend(a: seq<(string, string)>, b: seq<(string, string)>, k: string)
    ensures GetList(Form(a + b), k) == GetList(Form(a), k) + GetList(Form(b), k)
  {
    if a == [] {
      assert a + b == b;
    } else {
      assert (a + b)[1..] == a[1..] + b;
      GetListAppend(a[1..], b, k);
    }
  }

  /** A single pair contributes its value exactly when its key is `k`; with GetListAppend this
      fixes `getlist` on every form. */
  lemma GetListSingle(key: string, v: string, k: string)
    ensures GetList(Form([(key, v)]), k) == (if key == k then [v] else [])
  {
    assert [(key, v)][1..] == [];
  }
}
