/**
 * The refresh of a source registry, shared by both trees: list the `ClusterExternalIPSource`
 * resources, convert each, split the results into sources and failures, index the sources
 * by name, and report every failure with a reference to the resource it came from.
 */
module SourceIndex {
  import opened Wrappers
  import Crd
  import Kube

  type Item = Crd.ClusterExternalIPSource

  /** The reason and action of the event published for a resource that does not convert. */
  const REASON_EIP_ERROR: string := "InvalidIPSource"
  const ACTION_PARSING: string := "ParsingClusterExternalIPSource"

  /** The resources that converted, as sources in listing order. */
  function Sources<S, E>(items: seq<Item>, convert: Item -> Result<S, E>): (oks: seq<S>)
    ensures |oks| <= |items|
    ensures forall j :: 0 <= j < |oks| ==> exists i :: 0 <= i < |items| && convert(items[i]) == Ok(oks[j])
  {
    if items == [] then []
    else
      var init := items[..|items| - 1];
      var rest := Sources(init, convert);
      assert forall j :: 0 <= j < |rest| ==> exists i :: 0 <= i < |items| && convert(items[i]) == Ok(rest[j]) by {
        forall j | 0 <= j < |rest| ensures exists i :: 0 <= i < |items| && convert(items[i]) == Ok(rest[j]) {
          var i :| 0 <= i < |init| && convert(init[i]) == Ok(rest[j]);
          assert init[i] == items[i];
        }
      }
      match convert(items[|items| - 1])
      case Ok(s) => rest + [s]
      case Err(_) => rest
  }

  /** `f` is the failure `item` is reported by: its conversion error with its reference. */
  ghost predicate FailsAs<S, E>(convert: Item -> Result<S, E>, item: Item, f: (E, Kube.ObjectReference)) {
    convert(item).Err? && f == (convert(item).error, Crd.ObjectRef(item))
  }

  /** The resources that did not convert: each error with the reference of its resource, in listing order. */
  function Failures<S, E>(items: seq<Item>, convert: Item -> Result<S, E>): (fs: seq<(E, Kube.ObjectReference)>)
    ensures |fs| <= |items|
    ensures forall j :: 0 <= j < |fs| ==> exists i :: 0 <= i < |items| && FailsAs(convert, items[i], fs[j])
  {
    if items == [] then []
    else
      var init := items[..|items| - 1];
      var rest := Failures(init, convert);
      assert forall j :: 0 <= j < |rest| ==> exists i :: 0 <= i < |items| && FailsAs(convert, items[i], rest[j]) by {
        forall j | 0 <= j < |rest| ensures exists i :: 0 <= i < |items| && FailsAs(convert, items[i], rest[j]) {
          var i :| 0 <= i < |init| && FailsAs(convert, init[i], rest[j]);
          assert init[i] == items[i];
        }
      }
      match convert(items[|items| - 1])
      case Ok(_) => rest
      case Err(e) => rest + [(e, Crd.ObjectRef(items[|items| - 1]))]
  }

  /** The partition loses no resource and counts none twice. */
  lemma {:induction false} PartitionCounts<S, E>(items: seq<Item>, convert: Item -> Result<S, E>)
    ensures |Sources(items, convert)| + |Failures(items, convert)| == |items|
  {
    if items != [] {
      PartitionCounts(items[..|items| - 1], convert);
    }
  }

  /** A listing in which every resource converts yields one source per resource, in order. */
  lemma {:induction false} AllConvertedNoFailures<S, E>(items: seq<Item>, convert: Item -> Result<S, E>)
    requires forall i :: 0 <= i < |items| ==> convert(items[i]).Ok?
    ensures |Sources(items, convert)| == |items| && Failures(items, convert) == []
    ensures forall i :: 0 <= i < |items| ==> Sources(items, convert)[i] == convert(items[i]).value
  {
    if items != [] {
      var init := items[..|items| - 1];
      forall i | 0 <= i < |init| ensures convert(init[i]).Ok? {
        assert init[i] == items[i];
      }
      AllConvertedNoFailures(init, convert);
      var last := convert(items[|items| - 1]);
      assert Sources(items, convert) == Sources(init, convert) + [last.value];
      forall i | 0 <= i < |items| ensures Sources(items, convert)[i] == convert(items[i]).value {
        if i < |init| {
          assert init[i] == items[i];
        }
      }
    }
  }

  /** A resource that does not convert leaves the sources as they were and adds one failure. */
  lemma FailureOnlyAddsEvent<S, E>(items: seq<Item>, bad: Item, convert: Item -> Result<S, E>)
    requires convert(bad).Err?
    ensures Sources(items + [bad], convert) == Sources(items, convert)
    ensures Failures(items + [bad], convert) == Failures(items, convert) + [(convert(bad).error, Crd.ObjectRef(bad))]
  {
    assert (items + [bad])[..|items|] == items;
  }

  /** Every resource that converts contributes its source. */
  lemma {:induction false} SourcesComplete<S, E>(items: seq<Item>, convert: Item -> Result<S, E>, i: nat)
    requires i < |items| && convert(items[i]).Ok?
    ensures exists j :: 0 <= j < |Sources(items, convert)| && Sources(items, convert)[j] == convert(items[i]).value
  {
    var init := items[..|items| - 1];
    if i < |items| - 1 {
      assert init[i] == items[i];
      SourcesComplete(init, convert, i);
      var j :| 0 <= j < |Sources(init, convert)| && Sources(init, convert)[j] == convert(items[i]).value;
      assert Sources(items, convert)[j] == convert(items[i]).value;
    } else {
      var oks := Sources(items, convert);
      assert oks == Sources(init, convert) + [convert(items[i]).value];
      assert oks[|oks| - 1] == convert(items[i]).value;
    }
  }

  /** Every resource that does not convert is reported, with its error and its reference. */
  lemma {:induction false} FailuresComplete<S, E>(items: seq<Item>, convert: Item -> Result<S, E>, i: nat)
    requires i < |items| && convert(items[i]).Err?
    ensures (convert(items[i]).error, Crd.ObjectRef(items[i])) in Failures(items, convert)
  {
    var init := items[..|items| - 1];
    if i < |items| - 1 {
      assert init[i] == items[i];
      FailuresComplete(init, convert, i);
      assert Failures(init, convert) <= Failures(items, convert);
    } else {
      var fs := Failures(items, convert);
      assert fs == Failures(init, convert) + [(convert(items[i]).error, Crd.ObjectRef(items[i]))];
      assert fs[|fs| - 1] == (convert(items[i]).error, Crd.ObjectRef(items[i]));
    }
  }

  /** The positions of the listed resources that do not convert. */
  ghost function FailingIndices<S, E>(items: seq<Item>, convert: Item -> Result<S, E>): set<nat> {
    set i: nat | i < |items| && convert(items[i]).Err?
  }

  /** There are exactly as many failures as resources that do not convert. */
  lemma {:induction false} FailuresCount<S, E>(items: seq<Item>, convert: Item -> Result<S, E>)
    ensures |Failures(items, convert)| == |FailingIndices(items, convert)|
  {
    if items == [] {
      assert FailingIndices(items, convert) == {};
    } else {
      var n := |items| - 1;
      var init := items[..n];
      FailuresCount(init, convert);
      forall i | 0 <= i < n ensures init[i] == items[i] { }
      if convert(items[n]).Err? {
        assert FailingIndices(items, convert) == FailingIndices(init, convert) + {n};
        assert n !in FailingIndices(init, convert);
      } else {
        assert FailingIndices(items, convert) == FailingIndices(init, convert);
      }
    }
  }

  /** The map from name to source; a later source replaces an earlier one of the same name. */
  function Index<S>(oks: seq<S>, name: S -> string): (m: map<string, S>)
    ensures forall j :: 0 <= j < |oks| ==> name(oks[j]) in m
    ensures forall k :: k in m ==> name(m[k]) == k
    ensures forall k :: k in m ==> exists j :: 0 <= j < |oks| && name(oks[j]) == k
  {
    if oks == [] then map[]
    else
      var init := oks[..|oks| - 1];
      var m := Index(init, name);
      assert forall j :: 0 <= j < |init| ==> init[j] == oks[j];
      m[name(oks[|oks| - 1]) := oks[|oks| - 1]]
  }

  /** The source a name maps to is the last source listed under that name. */
  lemma {:induction false} LastWins<S>(oks: seq<S>, name: S -> string, j: nat)
    requires j < |oks|
    requires forall l :: j < l < |oks| ==> name(oks[l]) != name(oks[j])
    ensures Index(oks, name)[name(oks[j])] == oks[j]
  {
    if j < |oks| - 1 {
      var init := oks[..|oks| - 1];
      assert init[j] == oks[j];
      forall l | j < l < |init| ensures name(init[l]) != name(init[j]) {
        assert init[l] == oks[l];
      }
      LastWins(init, name, j);
    }
  }

  /** A converted resource with no later converted resource of the same name is the one indexed. */
  lemma {:induction false} LastConvertedWins<S, E>(items: seq<Item>, convert: Item -> Result<S, E>, name: S -> string, i: nat)
    requires i < |items| && convert(items[i]).Ok?
    requires forall l :: i < l < |items| && convert(items[l]).Ok? ==> name(convert(items[l]).value) != name(convert(items[i]).value)
    ensures var n := name(convert(items[i]).value);
      n in Index(Sources(items, convert), name) && Index(Sources(items, convert), name)[n] == convert(items[i]).value
  {
    var init := items[..|items| - 1];
    var n := name(convert(items[i]).value);
    if i < |items| - 1 {
      assert init[i] == items[i];
      forall l | i < l < |init| && convert(init[l]).Ok? ensures name(convert(init[l]).value) != n {
        assert init[l] == items[l];
      }
      LastConvertedWins(init, convert, name, i);
      var last := items[|items| - 1];
      if convert(last).Ok? {
        assert Sources(items, convert) == Sources(init, convert) + [convert(last).value];
        assert name(convert(last).value) != n;
      } else {
        assert Sources(items, convert) == Sources(init, convert);
      }
    } else {
      assert Sources(items, convert) == Sources(init, convert) + [convert(items[i]).value];
    }
  }

  /** After a refresh a name is known exactly when some listed resource converts to a source of that name. */
  lemma IndexedIffConverted<S, E>(items: seq<Item>, convert: Item -> Result<S, E>, name: S -> string, n: string)
    ensures n in Index(Sources(items, convert), name) <==>
              exists i :: 0 <= i < |items| && convert(items[i]).Ok? && name(convert(items[i]).value) == n
  {
    var oks := Sources(items, convert);
    if n in Index(oks, name) {
      var j :| 0 <= j < |oks| && name(oks[j]) == n;
      var i :| 0 <= i < |items| && convert(items[i]) == Ok(oks[j]);
      assert convert(items[i]).Ok? && name(convert(items[i]).value) == n;
    }
    if exists i :: 0 <= i < |items| && convert(items[i]).Ok? && name(convert(items[i]).value) == n {
      var i :| 0 <= i < |items| && convert(items[i]).Ok? && name(convert(items[i]).value) == n;
      SourcesComplete(items, convert, i);
    }
  }

  /** The event published for a resource that does not convert: a warning about that resource carrying the error. */
  function FailureEvent<E>(f: (E, Kube.ObjectReference)): Kube.Event<E> {
    Kube.Event(REASON_EIP_ERROR, ACTION_PARSING, Kube.Warning, Some(f.0), f.1)
  }

  /** One event per failure, in order. */
  function FailureEvents<E>(fs: seq<(E, Kube.ObjectReference)>): (evs: seq<Kube.Event<E>>)
    ensures |evs| == |fs|
    ensures forall j :: 0 <= j < |fs| ==> evs[j] == FailureEvent(fs[j])
  {
    if fs == [] then [] else FailureEvents(fs[..|fs| - 1]) + [FailureEvent(fs[|fs| - 1])]
  }

  /** Every published event is a warning about a listed resource that does not convert, carrying its error. */
  lemma EventsReportFailures<S, E>(items: seq<Item>, convert: Item -> Result<S, E>, j: nat)
    requires j < |FailureEvents(Failures(items, convert))|
    ensures var ev := FailureEvents(Failures(items, convert))[j];
      ev.reason == REASON_EIP_ERROR && ev.eventType == Kube.Warning &&
      exists i :: 0 <= i < |items| && convert(items[i]).Err? && ev.note == Some(convert(items[i]).error) && ev.regarding == Crd.ObjectRef(items[i])
  {
    var fs := Failures(items, convert);
    var i :| 0 <= i < |items| && FailsAs(convert, items[i], fs[j]);
  }

  /** Every resource that does not convert gets its `InvalidIPSource` warning, carrying its error. */
  lemma EventsComplete<S, E>(items: seq<Item>, convert: Item -> Result<S, E>, i: nat)
    requires i < |items| && convert(items[i]).Err?
    ensures Kube.Event(REASON_EIP_ERROR, ACTION_PARSING, Kube.Warning, Some(convert(items[i]).error), Crd.ObjectRef(items[i]))
              in FailureEvents(Failures(items, convert))
  {
    var fs := Failures(items, convert);
    FailuresComplete(items, convert, i);
    var j :| 0 <= j < |fs| && fs[j] == (convert(items[i]).error, Crd.ObjectRef(items[i]));
    assert FailureEvents(fs)[j] == FailureEvent(fs[j]);
  }

  /** The split of the converted listing into sources and failures, as the refresh computes it. */
  method Partition<S, E>(items: seq<Item>, convert: Item -> Result<S, E>)
    returns (oks: seq<S>, errs: seq<(E, Kube.ObjectReference)>)
    ensures oks == Sources(items, convert) && errs == Failures(items, convert)
  {
    oks, errs := [], [];
    var i := 0;
    while i < |items|
      invariant 0 <= i <= |items|
      invariant oks == Sources(items[..i], convert) && errs == Failures(items[..i], convert)
    {
      assert items[..i + 1][..i] == items[..i];
      var item := items[i];
      match convert(item) {
        case Ok(s) => oks := oks + [s];
        case Err(e) => errs := errs + [(e, Crd.ObjectRef(item))];
      }
      i := i + 1;
    }
    assert items[..i] == items;
  }

  /** The collection of the sources into a map keyed by name. */
  method Collect<S>(oks: seq<S>, name: S -> string) returns (m: map<string, S>)
    ensures m == Index(oks, name)
  {
    m := map[];
    var i := 0;
    while i < |oks|
      invariant 0 <= i <= |oks|
      invariant m == Index(oks[..i], name)
    {
      assert oks[..i + 1][..i] == oks[..i];
      m := m[name(oks[i]) := oks[i]];
      i := i + 1;
    }
    assert oks[..i] == oks;
  }
}
