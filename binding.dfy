/** stmt.bind as a function of the statement's bind state: the arity check,
    then one native bind call per argument, in order, at positions 1, 2, ...,
    stopping at the first call that does not report SQLITE_OK. */
module Binding {
  import opened Sqlite3
  import opened Values
  import opened Engine
  import opened Codec

  /** The bind calls a complete binding of args makes, in order. */
  function Calls(args: seq<Value>, fmt: Formatting): (calls: seq<BindCall>)
    ensures |calls| == |args|
    ensures forall j :: 0 <= j < |args| ==> calls[j] == BindCall(j + 1, OpFor(args[j], fmt))
  {
    seq(|args|, j requires 0 <= j < |args| => BindCall(j + 1, OpFor(args[j], fmt)))
  }

  /** The loop of stmt.bind from argument i on. */
  function BindFrom(st: BindState, args: seq<Value>, fmt: Formatting, script: seq<int32>, i: nat): (r: (BindState, Option<Error>))
    requires i <= |args|
    decreases |args| - i
  {
    if i == |args| then (st, None)
    else
      var (st', rc) := NativeBind(st, i + 1, OpFor(args[i], fmt), script);
      if rc != OK then (st', Some(BindError(rc)))
      else BindFrom(st', args, fmt, script, i + 1)
  }

  /** stmt.bind: the argument count must equal the parameter count. */
  function Bind(st: BindState, args: seq<Value>, fmt: Formatting, script: seq<int32>): (r: (BindState, Option<Error>)) {
    if |args| != |st.slots| then (st, Some(ArityError(|st.slots|, |args|)))
    else BindFrom(st, args, fmt, script, 0)
  }

  /** The index of the first bind call in [lo, hi) that the engine fails,
      or `hi` when it fails none of them. */
  function FirstFailure(script: seq<int32>, lo: nat, hi: nat): (k: nat)
    requires lo <= hi
    ensures lo <= k <= hi
    ensures forall c :: lo <= c < k ==> StatusAt(script, c) == OK
    ensures k < hi ==> StatusAt(script, k) != OK
    decreases hi - lo
  {
    if lo == hi then hi
    else if StatusAt(script, lo) != OK then lo
    else FirstFailure(script, lo + 1, hi)
  }

  /** The argument index at which the loop from argument i stops: the first
      one whose bind call fails, or |args|. */
  function StopIndex(st: BindState, args: seq<Value>, script: seq<int32>, i: nat): (k: nat)
    requires i <= |args|
    ensures i <= k <= |args|
  {
    var base := |st.log|;
    i + (FirstFailure(script, base, base + (|args| - i)) - base)
  }

  /** Unfolding StopIndex by one argument. */
  lemma StopIndexStep(st: BindState, st': BindState, args: seq<Value>, script: seq<int32>, i: nat)
    requires i < |args| && |st'.log| == |st.log| + 1
    ensures StatusAt(script, |st.log|) != OK ==> StopIndex(st, args, script, i) == i
    ensures StatusAt(script, |st.log|) == OK ==> StopIndex(st, args, script, i) == StopIndex(st', args, script, i + 1)
  {
  }

  /** The error the loop from argument i returns: the status of the failing call. */
  lemma {:induction false} BindFromError(st: BindState, args: seq<Value>, fmt: Formatting, script: seq<int32>, i: nat)
    requires i <= |args| == |st.slots|
    ensures var k := StopIndex(st, args, script, i);
            BindFrom(st, args, fmt, script, i).1 ==
              if k < |args| then Some(BindError(StatusAt(script, |st.log| + (k - i)))) else None
    decreases |args| - i
  {
    if i < |args| {
      var (st', rc) := NativeBind(st, i + 1, OpFor(args[i], fmt), script);
      StopIndexStep(st, st', args, script, i);
      if rc == OK {
        BindFromError(st', args, fmt, script, i + 1);
      }
    }
  }

  /** The calls the loop from argument i makes: one per argument from i up to
      and including the failing one, in order. */
  lemma {:induction false} BindFromLog(st: BindState, args: seq<Value>, fmt: Formatting, script: seq<int32>, i: nat)
    requires i <= |args| == |st.slots|
    ensures var k := StopIndex(st, args, script, i);
            BindFrom(st, args, fmt, script, i).0.log ==
              st.log + Calls(args, fmt)[i..if k < |args| then k + 1 else k]
    decreases |args| - i
  {
    if i < |args| {
      var op := OpFor(args[i], fmt);
      var r := NativeBind(st, i + 1, op, script);
      var k := StopIndex(st, args, script, i);
      var e := if k < |args| then k + 1 else k;
      var calls := Calls(args, fmt);
      StopIndexStep(st, r.0, args, script, i);
      SliceHead(calls, i, e);
      assert calls[i] == BindCall(i + 1, op);
      if r.1 == OK {
        BindFromLog(r.0, args, fmt, script, i + 1);
        assert BindFrom(st, args, fmt, script, i) == BindFrom(r.0, args, fmt, script, i + 1);
      } else {
        assert BindFrom(st, args, fmt, script, i) == (r.0, Some(BindError(r.1)));
        assert e == i + 1;
      }
    }
  }

  /** A non-empty slice is its first element followed by the rest. */
  lemma SliceHead<T>(s: seq<T>, i: nat, e: nat)
    requires i < e <= |s|
    ensures s[i..e] == [s[i]] + s[i + 1..e]
  {
  }

  /** The slots after the loop from argument i: the arguments from i up to
      the failing one are bound at their own positions, the failing call
      leaves its slot as SlotAfterFailure says, and all others are unchanged. */
  lemma {:induction false} BindFromSlots(st: BindState, args: seq<Value>, fmt: Formatting, script: seq<int32>, i: nat)
    requires i <= |args| == |st.slots|
    ensures var k := StopIndex(st, args, script, i);
            var slots := BindFrom(st, args, fmt, script, i).0.slots;
            |slots| == |st.slots| &&
            (forall p :: i <= p < k ==> slots[p] == Bound(OpFor(args[p], fmt))) &&
            (k < |args| ==> slots[k] == SlotAfterFailure(st.slots[k], StatusAt(script, |st.log| + (k - i)))) &&
            (forall p :: 0 <= p < |st.slots| && !(i <= p <= k) ==> slots[p] == st.slots[p])
    decreases |args| - i
  {
    if i < |args| {
      var (st', rc) := NativeBind(st, i + 1, OpFor(args[i], fmt), script);
      StopIndexStep(st, st', args, script, i);
      if rc == OK {
        BindFromSlots(st', args, fmt, script, i + 1);
      }
    }
  }

  /** If the argument count differs from the parameter count, bind fails
      with an arity error before any native bind call: nothing changes. */
  lemma BindArityRejected(st: BindState, args: seq<Value>, fmt: Formatting, script: seq<int32>)
    requires |args| != |st.slots|
    ensures Bind(st, args, fmt, script) == (st, Some(ArityError(|st.slots|, |args|)))
  {
  }

  /** A successful bind records exactly the calls Calls(args), one per
      argument and in order, and leaves argument i bound at position i + 1. */
  lemma BindSuccess(st: BindState, args: seq<Value>, fmt: Formatting, script: seq<int32>)
    requires Bind(st, args, fmt, script).1 == None
    ensures |args| == |st.slots|
    ensures var r := Bind(st, args, fmt, script).0;
            r.log == st.log + Calls(args, fmt) &&
            |r.slots| == |args| &&
            forall p :: 0 <= p < |args| ==> r.slots[p] == Bound(OpFor(args[p], fmt))
  {
    BindFromLog(st, args, fmt, script, 0);
    BindFromSlots(st, args, fmt, script, 0);
    BindFromError(st, args, fmt, script, 0);
  }

  /** Bind succeeds exactly when the counts agree and the engine accepts
      every one of the |args| calls that the binding makes. */
  lemma BindSucceedsIff(st: BindState, args: seq<Value>, fmt: Formatting, script: seq<int32>)
    ensures Bind(st, args, fmt, script).1 == None <==>
            |args| == |st.slots| && forall c :: |st.log| <= c < |st.log| + |args| ==> StatusAt(script, c) == OK
  {
    if |args| == |st.slots| {
      BindFromError(st, args, fmt, script, 0);
    }
  }

  /** When the engine fails the call for argument k, bind returns that
      status; arguments 0..k-1 stay bound, slot k is left as the failing call
      leaves it (kept on SQLITE_RANGE or SQLITE_MISUSE, cleared otherwise),
      the slots after k are untouched, and no call is made after k. */
  lemma BindFailure(st: BindState, args: seq<Value>, fmt: Formatting, script: seq<int32>, k: nat)
    requires |args| == |st.slots| && k < |args|
    requires forall c :: |st.log| <= c < |st.log| + k ==> StatusAt(script, c) == OK
    requires StatusAt(script, |st.log| + k) != OK
    ensures var r := Bind(st, args, fmt, script);
            r.1 == Some(BindError(StatusAt(script, |st.log| + k))) &&
            |r.0.slots| == |args| &&
            r.0.log == st.log + Calls(args, fmt)[..k + 1] &&
            (forall p :: 0 <= p < k ==> r.0.slots[p] == Bound(OpFor(args[p], fmt))) &&
            r.0.slots[k] == SlotAfterFailure(st.slots[k], StatusAt(script, |st.log| + k)) &&
            (forall p :: k < p < |args| ==> r.0.slots[p] == st.slots[p])
  {
    BindFromLog(st, args, fmt, script, 0);
    BindFromSlots(st, args, fmt, script, 0);
    BindFromError(st, args, fmt, script, 0);
  }
}
