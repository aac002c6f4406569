/** The parts of a Sentry event the two `beforeSend` hooks touch, and the
    query-parameter list of a URL with URLSearchParams' `delete`. */
module SentryEvent {
  import opened Js

  /** A URL as `new URL` splits it: everything before the query, the query
      as its list of name/value pairs (decoded), and the fragment. Parsing
      and serialisation are not modelled. */
  datatype Url = Url(prefix: string, query: seq<(string, string)>, fragment: string)

  /** `event.request`: the page URL, if any, and the request headers, if any. */
  class EventRequest {
    var url: Option<Url>
    var headers: Option<map<string, string>>

    constructor(url: Option<Url>, headers: Option<map<string, string>>)
      ensures this.url == url && this.headers == headers
    {
      this.url := url;
      this.headers := headers;
    }
  }

  class Event {
    var request: EventRequest?

    constructor(request: EventRequest?)
      ensures this.request == request
    {
      this.request := request;
    }
  }

  /** `if (dsn)`: an environment variable that is set and not empty. */
  predicate IsSet(v: Option<string>) {
    v.Some? && v.value != ""
  }

  /** The list with every pair named `name` removed, the rest in order. */
  function Without(list: seq<(string, string)>, name: string): seq<(string, string)> {
    if list == [] then []
    else (if list[0].0 == name then [] else [list[0]]) + Without(list[1..], name)
  }

  /** The pairs named `name`, in order. */
  function Only(list: seq<(string, string)>, name: string): seq<(string, string)> {
    if list == [] then []
    else (if list[0].0 == name then [list[0]] else []) + Only(list[1..], name)
  }

  /** The pairs whose name is none of `names`, in order. */
  function WithoutAll(list: seq<(string, string)>, names: set<string>): seq<(string, string)> {
    if list == [] then []
    else (if list[0].0 in names then [] else [list[0]]) + WithoutAll(list[1..], names)
  }

  /** The position in `list`, counted from `base`, of each pair WithoutAll keeps. */
  function KeptFrom(list: seq<(string, string)>, names: set<string>, base: nat): (r: seq<nat>)
    ensures |r| == |WithoutAll(list, names)|
  {
    if list == [] then []
    else (if list[0].0 in names then [] else [base]) + KeptFrom(list[1..], names, base + 1)
  }

  /** The position in `list` of each pair WithoutAll keeps. */
  function KeptIndices(list: seq<(string, string)>, names: set<string>): seq<nat> {
    KeptFrom(list, names, 0)
  }

  /** Each kept position holds the pair WithoutAll keeps there. */
  lemma {:induction false} KeptFromPoints(list: seq<(string, string)>, names: set<string>, base: nat)
    ensures forall k :: 0 <= k < |KeptFrom(list, names, base)| ==>
      base <= KeptFrom(list, names, base)[k] < base + |list| &&
      list[KeptFrom(list, names, base)[k] - base] == WithoutAll(list, names)[k]
    decreases |list|
  {
    if list != [] {
      var t := list[1..];
      KeptFromPoints(t, names, base + 1);
      var n := if list[0].0 in names then 0 else 1;
      var r := KeptFrom(list, names, base);
      var w := WithoutAll(list, names);
      forall k | 0 <= k < |r|
        ensures base <= r[k] < base + |list| && list[r[k] - base] == w[k]
      {
        if k >= n {
          assert r[k] == KeptFrom(t, names, base + 1)[k - n];
          assert w[k] == WithoutAll(t, names)[k - n];
          assert list[r[k] - base] == t[r[k] - (base + 1)];
        }
      }
    }
  }

  /** The kept positions increase strictly. */
  lemma {:induction false} KeptFromIncreases(list: seq<(string, string)>, names: set<string>, base: nat)
    ensures forall k, k' :: 0 <= k < k' < |KeptFrom(list, names, base)| ==>
      KeptFrom(list, names, base)[k] < KeptFrom(list, names, base)[k']
    decreases |list|
  {
    if list != [] {
      var t := list[1..];
      KeptFromIncreases(t, names, base + 1);
      KeptFromPoints(t, names, base + 1);
    }
  }

  /** Every pair whose name is not in `names` has its position kept. */
  lemma {:induction false} KeptFromComplete(list: seq<(string, string)>, names: set<string>, base: nat)
    ensures forall j :: 0 <= j < |list| && list[j].0 !in names ==> base + j in KeptFrom(list, names, base)
    decreases |list|
  {
    if list != [] {
      var t := list[1..];
      KeptFromComplete(t, names, base + 1);
      forall j | 0 <= j < |list| && list[j].0 !in names
        ensures base + j in KeptFrom(list, names, base)
      {
        if j > 0 {
          assert t[j - 1] == list[j];
          assert base + 1 + (j - 1) in KeptFrom(t, names, base + 1);
        }
      }
    }
  }

  /** The three facts about KeptIndices together. */
  lemma KeptIndicesEmbed(list: seq<(string, string)>, names: set<string>)
    ensures |KeptIndices(list, names)| == |WithoutAll(list, names)|
    ensures forall k :: 0 <= k < |KeptIndices(list, names)| ==>
      KeptIndices(list, names)[k] < |list| && list[KeptIndices(list, names)[k]] == WithoutAll(list, names)[k]
    ensures forall k, k' :: 0 <= k < k' < |KeptIndices(list, names)| ==>
      KeptIndices(list, names)[k] < KeptIndices(list, names)[k']
    ensures forall j :: 0 <= j < |list| && list[j].0 !in names ==> j in KeptIndices(list, names)
  {
    var at := KeptFrom(list, names, 0);
    var w := WithoutAll(list, names);
    forall k | 0 <= k < |at|
      ensures at[k] < |list| && list[at[k]] == w[k]
    {
      KeptFromPoints(list, names, 0);
    }
    forall k, k' | 0 <= k < k' < |at|
      ensures at[k] < at[k']
    {
      KeptFromIncreases(list, names, 0);
    }
    forall j | 0 <= j < |list| && list[j].0 !in names
      ensures j in at
    {
      KeptFromComplete(list, names, 0);
    }
  }

  /** WithoutAll keeps no pair named in `names`. */
  lemma {:induction false} WithoutAllRemoves(list: seq<(string, string)>, names: set<string>)
    ensures forall k :: 0 <= k < |WithoutAll(list, names)| ==> WithoutAll(list, names)[k].0 !in names
    decreases |list|
  {
    if list != [] {
      WithoutAllRemoves(list[1..], names);
    }
  }

  /** Deleting one more name from WithoutAll drops that name as well. */
  lemma {:induction false} WithoutAfterWithoutAll(list: seq<(string, string)>, names: set<string>, name: string)
    ensures Without(WithoutAll(list, names), name) == WithoutAll(list, names + {name})
    decreases |list|
  {
    if list != [] {
      WithoutAfterWithoutAll(list[1..], names, name);
      var head := if list[0].0 in names then [] else [list[0]];
      WithoutAppend(head, WithoutAll(list[1..], names), name);
    }
  }

  /** Dropping no name keeps the whole list. */
  lemma {:induction false} WithoutNone(list: seq<(string, string)>)
    ensures WithoutAll(list, {}) == list
    decreases |list|
  {
    if list != [] {
      WithoutNone(list[1..]);
      assert [list[0]] + list[1..] == list;
    }
  }

  lemma {:induction false} WithoutAppend(a: seq<(string, string)>, b: seq<(string, string)>, name: string)
    ensures Without(a + b, name) == Without(a, name) + Without(b, name)
    decreases |a|
  {
    if a != [] {
      assert (a + b)[1..] == a[1..] + b;
      WithoutAppend(a[1..], b, name);
    } else {
      assert a + b == b;
    }
  }

  /** After the removal no pair has that name. */
  lemma {:induction false} WithoutRemoves(list: seq<(string, string)>, name: string)
    ensures forall i :: 0 <= i < |Without(list, name)| ==> Without(list, name)[i].0 != name
    decreases |list|
  {
    if list != [] {
      WithoutRemoves(list[1..], name);
    }
  }

  /** Every other name keeps its pairs, values and order. */
  lemma {:induction false} WithoutKeepsOthers(list: seq<(string, string)>, name: string, other: string)
    requires other != name
    ensures Only(Without(list, name), other) == Only(list, other)
    decreases |list|
  {
    if list != [] {
      WithoutKeepsOthers(list[1..], name, other);
      var head := if list[0].0 == name then [] else [list[0]];
      OnlyAppend(head, Without(list[1..], name), other);
    }
  }

  lemma {:induction false} OnlyAppend(a: seq<(string, string)>, b: seq<(string, string)>, name: string)
    ensures Only(a + b, name) == Only(a, name) + Only(b, name)
    decreases |a|
  {
    if a != [] {
      assert (a + b)[1..] == a[1..] + b;
      OnlyAppend(a[1..], b, name);
    } else {
      assert a + b == b;
    }
  }

  /** A list without the name is left as it is. */
  lemma {:induction false} WithoutAbsent(list: seq<(string, string)>, name: string)
    requires forall i :: 0 <= i < |list| ==> list[i].0 != name
    ensures Without(list, name) == list
    decreases |list|
  {
    if list != [] {
      WithoutAbsent(list[1..], name);
      assert [list[0]] + list[1..] == list;
    }
  }

  /** Dropping a pair with the name at i does not change what Without leaves. */
  lemma DropAt(xs: seq<(string, string)>, i: nat, name: string)
    requires i < |xs| && xs[i].0 == name
    ensures Without(xs[..i] + xs[i + 1..], name) == Without(xs, name)
  {
    assert xs == xs[..i] + xs[i..];
    WithoutAppend(xs[..i], xs[i..], name);
    assert xs[i..][1..] == xs[i + 1..];
    WithoutAppend(xs[..i], xs[i + 1..], name);
  }

  /** A pair with another name extends a prefix that Without keeps whole. */
  lemma KeepAt(xs: seq<(string, string)>, i: nat, name: string)
    requires i < |xs| && xs[i].0 != name && Without(xs[..i], name) == xs[..i]
    ensures Without(xs[..i + 1], name) == xs[..i + 1]
  {
    assert xs[..i + 1] == xs[..i] + [xs[i]];
    WithoutAppend(xs[..i], [xs[i]], name);
  }

  /** `url.searchParams`: the list URLSearchParams keeps. */
  class SearchParams {
    var list: seq<(string, string)>

    constructor(list: seq<(string, string)>)
      ensures this.list == list
    {
      this.list := list;
    }

    /** `delete(name)`: every pair with that name goes, in place. */
    method Delete(name: string)
      modifies this
      ensures list == Without(old(list), name)
    {
      var xs, i := list, 0;
      while i < |xs|
        invariant 0 <= i <= |xs|
        invariant Without(xs[..i], name) == xs[..i]
        invariant Without(xs, name) == Without(old(list), name)
        decreases |xs| - i
      {
        if xs[i].0 == name {
          DropAt(xs, i, name);
          var ys := xs[..i] + xs[i + 1..];
          assert ys[..i] == xs[..i];
          xs := ys;
        } else {
          KeepAt(xs, i, name);
          i := i + 1;
        }
      }
      assert xs[..i] == xs;
      list := xs;
    }
  }
}
