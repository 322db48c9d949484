/**
 * The newer tree's `Merge` solver: validated at construction by its mask sum; a query
 * checks the masks' family, asks each partial solver's registry cell for addresses, masks
 * the last one and adds the parts up into one address.
 */
module ExtMerge {
  import opened Wrappers
  import opened Ip
  import opened Bits
  import opened Crd
  import opened ExtErrors
  import opened MergeMasks
  import opened ExtSolverCells

  datatype Merge = Merge(partialSolvers: seq<PartialSolver>)

  /** `Merge::new`: the partial solvers are kept as given when their masks add up to a full address. */
  function New(pss: seq<PartialSolver>): (r: Result<Merge, IpSourceError>)
    ensures r.Ok? <==> ValidMaskSum(MaskSum(Masks(pss)))
    ensures r.Ok? ==> r.value.partialSolvers == pss
    ensures r.Err? ==> r.error == Malformed(MaskSumInvalid(MaskSum(Masks(pss))))
  {
    var sum := MaskSum(Masks(pss));
    if sum == U32_MAX || sum == U128_MAX then Ok(Merge.Merge(pss))
    else Err(Malformed(MaskSumInvalid(sum)))
  }

  /**
   * The mask sum is taken over unbounded naturals: two IPv6 masks whose `u128` sum wraps
   * around to `u32::MAX` are rejected with their true sum, where the program's release
   * build would accept them, and its debug build would panic.
   */
  lemma WrappedMaskSumRejected()
    ensures var pss := [PartialSolver(V6(U128_MAX), PartialLoadBalancerIngress), PartialSolver(V6(0x1_0000_0000), PartialLoadBalancerIngress)];
              MaskSum(Masks(pss)) > U128_MAX &&
              MaskSum(Masks(pss)) % (U128_MAX + 1) == U32_MAX &&
              New(pss) == Err(Malformed(MaskSumInvalid(MaskSum(Masks(pss)))))
  {
    var pss := [PartialSolver(V6(U128_MAX), PartialLoadBalancerIngress), PartialSolver(V6(0x1_0000_0000), PartialLoadBalancerIngress)];
    MaskSumOfTwo(V6(U128_MAX), V6(0x1_0000_0000));
    assert Masks(pss) == [V6(U128_MAX), V6(0x1_0000_0000)];
  }

  /** The registry key of a partial solver for a query of family `kind`. */
  function PartialKey(ps: PartialSolver, kind: AddressKind): (k: RegistryKey)
    ensures !k.0.Merge? && k.1 == kind
  {
    (FromPartial(ps.solver), kind)
  }

  datatype Progress<T> = Progress(result: Result<T, SolverError>, cells: Cells)

  /**
   * One partial solver's turn: find its cell, take the lock, query it, and keep the last
   * address it returned; an empty answer is an error of its own.
   */
  function Visit(cells: Cells, key: RegistryKey, kind: AddressKind, env: Env): (v: Progress<IpAddr>)
    requires Consistent(cells) && !key.0.Merge?
    ensures Consistent(v.cells) && v.cells.Keys == cells.Keys
    ensures forall k :: k in cells && k != key ==> v.cells[k] == cells[k]
    ensures v.result.Ok? ==> key in cells && key !in env.contended
    ensures key !in cells ==> v == Progress(Err(NotFound(key.0, key.1)), cells)
    ensures key in cells && key in env.contended ==> v == Progress(Err(LockTimeout), cells)
    ensures key in cells && key !in env.contended ==>
              var a := ResolveLeaf(cells[key], kind, env);
              v.cells == cells[key := a.state] &&
              v.result == (match a.result
                           case Err(e) => Err(e)
                           case Ok(addrs) => if addrs == [] then Err(NoPartialAddresses) else Ok(addrs[|addrs| - 1]))
    ensures v.result != Err(Panicked)
  {
    match Acquire(cells, key, env)
    case Err(e) => Progress(Err(e), cells)
    case Ok(st) =>
      assert ConfigOf(st) == key.0;
      var a := ResolveLeaf(st, kind, env);
      UpdateKeepsConsistent(cells, key, a.state);
      var cells' := cells[key := a.state];
      match a.result
      case Err(e) => Progress(Err(e), cells')
      case Ok(addrs) =>
        if addrs == [] then Progress(Err(NoPartialAddresses), cells')
        else Progress(Ok(addrs[|addrs| - 1]), cells')
  }

  /**
   * The loop over the partial solvers from index `i` on, with `lasts` the last addresses
   * collected so far. The first failing turn ends it.
   */
  function Collect(pss: seq<PartialSolver>, i: nat, kind: AddressKind, env: Env, cells: Cells, lasts: seq<IpAddr>): (p: Progress<seq<IpAddr>>)
    requires i <= |pss| && Consistent(cells)
    ensures Consistent(p.cells) && p.cells.Keys == cells.Keys
    ensures p.result.Ok? ==> |p.result.value| == |lasts| + |pss| - i
    ensures p.result.Ok? ==> forall j :: i <= j < |pss| ==> PartialKey(pss[j], kind) in cells && PartialKey(pss[j], kind) !in env.contended
    ensures p.result != Err(Panicked)
    decreases |pss| - i
  {
    if i == |pss| then Progress(Ok(lasts), cells)
    else
      var v := Visit(cells, PartialKey(pss[i], kind), kind, env);
      match v.result
      case Err(e) => Progress(Err(e), v.cells)
      case Ok(last) => Collect(pss, i + 1, kind, env, v.cells, lasts + [last])
  }

  lemma CollectUnfold(pss: seq<PartialSolver>, i: nat, kind: AddressKind, env: Env, cells: Cells, lasts: seq<IpAddr>)
    requires i < |pss| && Consistent(cells)
    ensures var v := Visit(cells, PartialKey(pss[i], kind), kind, env);
      Collect(pss, i, kind, env, cells, lasts) ==
        if v.result.Err? then Progress(Err(v.result.error), v.cells)
        else Collect(pss, i + 1, kind, env, v.cells, lasts + [v.result.value])
  {
  }

  /** `Merge::get_addresses` against the registry `cells`. */
  function Query(m: Merge, kind: AddressKind, env: Env, cells: Cells): (q: Progress<seq<IpAddr>>)
    requires Consistent(cells)
    ensures Consistent(q.cells) && q.cells.Keys == cells.Keys
    ensures FirstMismatch(Masks(m.partialSolvers), kind).Some? ==>
              q == Progress(Err(MaskMismatch(kind, FirstMismatch(Masks(m.partialSolvers), kind).value)), cells)
    ensures q.result.Ok? ==> |q.result.value| == 1 && KindOf(q.result.value[0]) == kind
  {
    var masks := Masks(m.partialSolvers);
    match FirstMismatch(masks, kind)
    case Some(bad) => Progress(Err(MaskMismatch(kind, bad)), cells)
    case None =>
      var p := Collect(m.partialSolvers, 0, kind, env, cells, []);
      match p.result
      case Err(e) => Progress(Err(e), p.cells)
      case Ok(lasts) => Progress(Assemble(kind, PartsSum(lasts, masks), Panicked), p.cells)
  }

  /**
   * On success the one address is the sum of the parts: the last address of each partial
   * solver masked by its mask; that sum never exceeds the mask sum.
   */
  lemma QuerySuccessValue(m: Merge, kind: AddressKind, env: Env, cells: Cells)
    requires Consistent(cells) && Query(m, kind, env, cells).result.Ok?
    ensures FirstMismatch(Masks(m.partialSolvers), kind).None?
    ensures var lasts := Collect(m.partialSolvers, 0, kind, env, cells, []).result;
      lasts.Ok? && |lasts.value| == |m.partialSolvers| &&
      ToU128(Query(m, kind, env, cells).result.value[0]) == PartsSum(lasts.value, Masks(m.partialSolvers)) &&
      ToU128(Query(m, kind, env, cells).result.value[0]) <= MaskSum(Masks(m.partialSolvers))
  {
    var lasts := Collect(m.partialSolvers, 0, kind, env, cells, []).result;
    PartsSumBound(lasts.value, Masks(m.partialSolvers));
  }

  /**
   * A merge that construction accepted never reaches the panicking conversion, provided it
   * has fewer than 2^96 parts (the bound that rules out IPv4 masks adding up to `2^128 - 1`).
   */
  lemma AcceptedMergeNeverPanics(pss: seq<PartialSolver>, kind: AddressKind, env: Env, cells: Cells)
    requires Consistent(cells) && New(pss).Ok? && |pss| < 0x1_0000_0000_0000_0000_0000_0000
    ensures Query(New(pss).value, kind, env, cells).result != Err(Panicked)
  {
    var masks := Masks(pss);
    if FirstMismatch(masks, kind).None? {
      var p := Collect(pss, 0, kind, env, cells, []);
      if p.result.Ok? {
        MergedValueFits(p.result.value, masks, kind);
      }
    }
  }

  /** The loop changes no cell but those of the remaining partial solvers. */
  lemma {:induction false} CollectLeavesOtherCells(pss: seq<PartialSolver>, i: nat, kind: AddressKind, env: Env, cells: Cells, lasts: seq<IpAddr>, k: RegistryKey)
    requires i <= |pss| && Consistent(cells) && k in cells
    requires forall j :: i <= j < |pss| ==> k != PartialKey(pss[j], kind)
    ensures Collect(pss, i, kind, env, cells, lasts).cells[k] == cells[k]
    decreases |pss| - i
  {
    if i < |pss| {
      var v := Visit(cells, PartialKey(pss[i], kind), kind, env);
      if v.result.Ok? {
        CollectLeavesOtherCells(pss, i + 1, kind, env, v.cells, lasts + [v.result.value], k);
      }
    }
  }

  /**
   * A partial solver without a registry cell, or whose cell stays locked, makes the whole
   * merge fail; and a merge never changes a cell that is not one of its partial solvers'.
   */
  lemma QueryNeedsEveryPartial(m: Merge, kind: AddressKind, env: Env, cells: Cells)
    requires Consistent(cells)
    ensures (exists j :: 0 <= j < |m.partialSolvers| &&
               (PartialKey(m.partialSolvers[j], kind) !in cells || PartialKey(m.partialSolvers[j], kind) in env.contended))
            ==> Query(m, kind, env, cells).result.Err?
    ensures forall k :: k in cells && (forall j :: 0 <= j < |m.partialSolvers| ==> k != PartialKey(m.partialSolvers[j], kind)) ==>
              Query(m, kind, env, cells).cells[k] == cells[k]
  {
    var pss := m.partialSolvers;
    if FirstMismatch(Masks(pss), kind).None? {
      forall k | k in cells && (forall j :: 0 <= j < |pss| ==> k != PartialKey(pss[j], kind))
        ensures Query(m, kind, env, cells).cells[k] == cells[k]
      {
        CollectLeavesOtherCells(pss, 0, kind, env, cells, [], k);
      }
    }
  }

  /** A partial solver answering with no address at all fails the merge at that point. */
  lemma EmptyPartialFails(pss: seq<PartialSolver>, i: nat, kind: AddressKind, env: Env, cells: Cells, lasts: seq<IpAddr>)
    requires i < |pss| && Consistent(cells)
    requires PartialKey(pss[i], kind) in cells && PartialKey(pss[i], kind) !in env.contended
    requires !cells[PartialKey(pss[i], kind)].MergeCell?
    requires ResolveLeaf(cells[PartialKey(pss[i], kind)], kind, env).result == Ok([])
    ensures Collect(pss, i, kind, env, cells, lasts).result == Err(NoPartialAddresses)
  {
  }

  lemma QueryAfterCollect(m: Merge, kind: AddressKind, env: Env, cells: Cells)
    requires Consistent(cells) && FirstMismatch(Masks(m.partialSolvers), kind).None?
    ensures var p := Collect(m.partialSolvers, 0, kind, env, cells, []);
      Query(m, kind, env, cells) ==
        if p.result.Err? then Progress(Err(p.result.error), p.cells)
        else Progress(Assemble(kind, PartsSum(p.result.value, Masks(m.partialSolvers)), Panicked), p.cells)
  {
  }

  /** The body of the source's loop for one partial solver, against the registry `cells`. */
  method Turn(key: RegistryKey, kind: AddressKind, env: Env, cells: Cells) returns (r: Result<IpAddr, SolverError>, out: Cells)
    requires Consistent(cells) && !key.0.Merge?
    ensures Progress(r, out) == Visit(cells, key, kind, env)
  {
    if key !in cells {
      return Err(NotFound(key.0, key.1)), cells;
    }
    if key in env.contended {
      return Err(LockTimeout), cells;
    }
    assert ConfigOf(cells[key]) == key.0;
    var answer := ResolveLeaf(cells[key], kind, env);
    out := cells[key := answer.state];
    if answer.result.Err? {
      return Err(answer.result.error), out;
    }
    var returned := answer.result.value;
    if returned == [] {
      return Err(NoPartialAddresses), out;
    }
    r := Ok(returned[|returned| - 1]);
  }

  /**
   * The loop of the merge query: each partial solver's turn in order, pushing its last
   * address and its part masked by `masks`, the masks of `pss`.
   */
  method Gather(pss: seq<PartialSolver>, masks: seq<IpAddr>, kind: AddressKind, env: Env, cells: Cells)
    returns (r: Result<seq<IpAddr>, SolverError>, parts: seq<nat>, out: Cells)
    requires Consistent(cells) && masks == Masks(pss)
    ensures Progress(r, out) == Collect(pss, 0, kind, env, cells, [])
    ensures r.Ok? ==> |r.value| == |masks| && parts == Parts(r.value, masks)
  {
    ghost var whole := Collect(pss, 0, kind, env, cells, []);
    var addrs: seq<IpAddr> := [];
    parts := [];
    out := cells;
    var i := 0;
    while i < |pss|
      invariant 0 <= i <= |pss| && |addrs| == i
      invariant Consistent(out)
      invariant parts == Parts(addrs, masks[..i])
      invariant whole == Collect(pss, i, kind, env, out, addrs)
    {
      var key := PartialKey(pss[i], kind);
      CollectUnfold(pss, i, kind, env, out, addrs);
      var last;
      last, out := Turn(key, kind, env, out);
      if last.Err? {
        return Err(last.error), parts, out;
      }
      PartsPush(addrs, masks, last.value);
      addrs := addrs + [last.value];
      parts := parts + [Part(last.value, masks[i])];
      i := i + 1;
    }
    assert masks[..i] == masks;
    r := Ok(addrs);
  }

  /**
   * The merge query as the source runs it: the family check, then the loop over the
   * partial solvers, then the sum and conversion.
   */
  method GetAddresses(m: Merge, kind: AddressKind, env: Env, cells: Cells) returns (r: Result<seq<IpAddr>, SolverError>, out: Cells)
    requires Consistent(cells)
    ensures Progress(r, out) == Query(m, kind, env, cells)
  {
    var pss := m.partialSolvers;
    var masks := Masks(pss);
    var mismatch := FirstMismatch(masks, kind);
    if mismatch.Some? {
      return Err(MaskMismatch(kind, mismatch.value)), cells;
    }
    QueryAfterCollect(m, kind, env, cells);
    var addrs, parts;
    addrs, parts, out := Gather(pss, masks, kind, env, cells);
    if addrs.Err? {
      return Err(addrs.error), out;
    }
    r := Convert(kind, Sum(parts), Panicked);
  }
}
