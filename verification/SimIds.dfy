/** `generateSimId` and `reserveSimId`: a type code in the high bits, a counter in the low 48. */
module SimIds {
  import opened JavaScript
  import opened Sorting
  import opened Wrappers
  import Decimal

  datatype SimType = Platform | Transmitter | Receiver | Target | Antenna | Waveform | Timing

  function TypeCode(t: SimType): (code: nat)
    ensures 1 <= code <= 7
  {
    match t
    case Platform => 1
    case Transmitter => 2
    case Receiver => 3
    case Target => 4
    case Antenna => 5
    case Waveform => 6
    case Timing => 7
  }

  const TYPE_UNIT: nat := 0x1_0000_0000_0000
  const MAX_COUNTER: nat := 0xffff_ffff_ffff

  function TypeOfCode(code: int): Option<SimType> {
    if code == 1 then Some(Platform)
    else if code == 2 then Some(Transmitter)
    else if code == 3 then Some(Receiver)
    else if code == 4 then Some(Target)
    else if code == 5 then Some(Antenna)
    else if code == 6 then Some(Waveform)
    else if code == 7 then Some(Timing)
    else None
  }

  datatype Counters = Counters(
    platform: nat, transmitter: nat, receiver: nat, target: nat, antenna: nat, waveform: nat, timing: nat)
  {
    function Get(t: SimType): nat {
      match t
      case Platform => platform
      case Transmitter => transmitter
      case Receiver => receiver
      case Target => target
      case Antenna => antenna
      case Waveform => waveform
      case Timing => timing
    }

    function Set(t: SimType, n: nat): (c: Counters)
      ensures c.Get(t) == n
      ensures forall u :: u != t ==> c.Get(u) == Get(u)
    {
      match t
      case Platform => this.(platform := n)
      case Transmitter => this.(transmitter := n)
      case Receiver => this.(receiver := n)
      case Target => this.(target := n)
      case Antenna => this.(antenna := n)
      case Waveform => this.(waveform := n)
      case Timing => this.(timing := n)
    }
  }

  const InitialCounters := Counters(1, 1, 1, 1, 1, 1, 1)

  function IdText(t: SimType, n: nat): string {
    Decimal.Print(TypeCode(t) * TYPE_UNIT + n)
  }

  /** The next id of a type and the counters after it; the source throws when the counter is used up. */
  function NextId(c: Counters, t: SimType): Result<(string, Counters)> {
    if c.Get(t) > MAX_COUNTER then Failure("SimId counter overflow")
    else Success((IdText(t, c.Get(t)), c.Set(t, c.Get(t) + 1)))
  }

  /** The counters after reserving the id with this value. A negative value has no type. */
  function ReserveValue(c: Counters, value: int): Counters {
    match TypeOfCode(value / TYPE_UNIT)
    case None => c
    case Some(t) =>
      var next := value % TYPE_UNIT + 1;
      if next > c.Get(t) then c.Set(t, next) else c
  }

  /** `reserveSimId`; `BigInt` throws for text that is not an integer. */
  function Reserve(c: Counters, id: string): Result<Counters> {
    match BigIntOf(id)
    case None => Failure("SyntaxError")
    case Some(value) => Success(ReserveValue(c, value))
  }

  /** `seedSimIdCounters`: absent and empty ids are skipped. */
  function Seed(c: Counters, ids: seq<Option<string>>): Result<Counters> {
    if ids == [] then Success(c)
    else
      var d :- Seed(c, ids[..|ids| - 1]);
      var last := ids[|ids| - 1];
      if last.Some? && last.value != "" then Reserve(d, last.value) else Success(d)
  }

  lemma IdTextInjective(t: SimType, m: nat, u: SimType, n: nat)
    requires m <= MAX_COUNTER && n <= MAX_COUNTER && IdText(t, m) == IdText(u, n)
    ensures t == u && m == n
  {
    hide Decimal.Print;
    Decimal.PrintInjective(TypeCode(t) * TYPE_UNIT + m, TypeCode(u) * TYPE_UNIT + n);
    assert TypeCode(t) == TypeCode(u);
  }

  // ---------- freshness ----------

  ghost predicate AtMost(c: Counters, d: Counters) {
    forall t :: c.Get(t) <= d.Get(t)
  }

  /** `id` was generated between the counters `c` and the counters `d`. */
  ghost predicate Issued(id: string, c: Counters, d: Counters) {
    exists t, n :: c.Get(t) <= n < d.Get(t) && n <= MAX_COUNTER && id == IdText(t, n)
  }

  /** No id generated from `c` on will be `id`. */
  ghost predicate Reserved(c: Counters, id: string) {
    forall t, n :: c.Get(t) <= n <= MAX_COUNTER ==> id != IdText(t, n)
  }

  /** A list of ids that are pairwise different and all generated between `c` and `d`. */
  ghost predicate FreshIds(ids: seq<string>, c: Counters, d: Counters) {
    && AtMost(c, d)
    && Distinct(ids)
    && (forall i :: 0 <= i < |ids| ==> Issued(ids[i], c, d))
  }

  lemma ReserveValueReserves(c: Counters, t: SimType, n: nat)
    requires n <= MAX_COUNTER
    ensures ReserveValue(c, TypeCode(t) * TYPE_UNIT + n).Get(t) > n
  {
    var value := TypeCode(t) * TYPE_UNIT + n;
    assert TypeOfCode(TypeCode(t)) == Some(t);
    assert value / TYPE_UNIT == TypeCode(t) && value % TYPE_UNIT == n;
  }

  /** After reserving an id no text with the same value is ever generated. */
  lemma ReserveReserves(c: Counters, id: string)
    requires Reserve(c, id).Success?
    ensures Reserved(Reserve(c, id).value, id) && AtMost(c, Reserve(c, id).value)
  {
    hide Decimal.Print, BigIntOf;
    var d := Reserve(c, id).value;
    forall t: SimType, n: nat | d.Get(t) <= n <= MAX_COUNTER
      ensures id != IdText(t, n)
    {
      BigIntOfPrint(TypeCode(t) * TYPE_UNIT + n);
      ReserveValueReserves(c, t, n);
    }
  }

  /** After seeding the counters with some ids none of them is ever generated. */
  lemma {:induction false} SeedReserves(c: Counters, ids: seq<Option<string>>)
    requires Seed(c, ids).Success?
    ensures AtMost(c, Seed(c, ids).value)
    ensures forall i :: 0 <= i < |ids| && ids[i].Some? && ids[i].value != "" ==>
              Reserved(Seed(c, ids).value, ids[i].value)
  {
    hide Reserve, Reserved;
    if ids != [] {
      var init, last := ids[..|ids| - 1], ids[|ids| - 1];
      SeedReserves(c, init);
      var d := Seed(c, init).value;
      if last.Some? && last.value != "" {
        ReserveReserves(d, last.value);
      }
      forall i | 0 <= i < |init| && ids[i].Some? && ids[i].value != ""
        ensures Reserved(Seed(c, ids).value, ids[i].value)
      {
        assert init[i] == ids[i];
        ReservedStays(d, Seed(c, ids).value, ids[i].value);
      }
    }
  }

  /** No generated id is empty. */
  lemma EmptyIsReserved(c: Counters)
    ensures Reserved(c, "")
  {
    hide Decimal.Print;
  }

  lemma ReservedStays(c: Counters, d: Counters, id: string)
    requires Reserved(c, id) && AtMost(c, d)
    ensures Reserved(d, id)
  {
  }

  /** A generated id is reserved by the counters that follow. */
  lemma IssuedIsReserved(id: string, c: Counters, d: Counters)
    requires Issued(id, c, d)
    ensures Reserved(d, id)
  {
    hide IdText;
    var t, m :| c.Get(t) <= m < d.Get(t) && m <= MAX_COUNTER && id == IdText(t, m);
    forall u: SimType, n: nat | d.Get(u) <= n <= MAX_COUNTER
      ensures id != IdText(u, n)
    {
      if id == IdText(u, n) {
        IdTextInjective(t, m, u, n);
      }
    }
  }

  lemma IssuedIsNotReservedBefore(id: string, c: Counters, d: Counters)
    requires Issued(id, c, d)
    ensures !Reserved(c, id)
  {
  }

  lemma FreshAppend(a: seq<string>, b: seq<string>, c: Counters, d: Counters, e: Counters)
    requires FreshIds(a, c, d) && FreshIds(b, d, e)
    ensures FreshIds(a + b, c, e)
  {
    hide IdText;
    forall i | 0 <= i < |a + b|
      ensures Issued((a + b)[i], c, e)
    {
      if i < |a| {
        assert Issued(a[i], c, d);
        var t, n :| c.Get(t) <= n < d.Get(t) && n <= MAX_COUNTER && a[i] == IdText(t, n);
        assert n < e.Get(t);
      } else {
        assert Issued(b[i - |a|], d, e);
        var t, n :| d.Get(t) <= n < e.Get(t) && n <= MAX_COUNTER && b[i - |a|] == IdText(t, n);
        assert c.Get(t) <= n;
      }
    }
    forall i, j | 0 <= i < |a| && 0 <= j < |b|
      ensures a[i] != b[j]
    {
      IssuedIsReserved(a[i], c, d);
      IssuedIsNotReservedBefore(b[j], d, e);
    }
  }

  lemma NextIdIsFresh(c: Counters, t: SimType)
    requires NextId(c, t).Success?
    ensures FreshIds([NextId(c, t).value.0], c, NextId(c, t).value.1)
    ensures NextId(c, t).value.0 != ""
  {
    var d := NextId(c, t).value.1;
    assert c.Get(t) < d.Get(t);
  }

  lemma NoIdsAreFresh(c: Counters)
    ensures FreshIds([], c, c)
  {
  }

  /** The module-level counters. */
  class SimIdCounters {
    var counters: Counters

    constructor ()
      ensures counters == InitialCounters
    {
      counters := InitialCounters;
    }

    method GenerateSimId(t: SimType) returns (r: Result<string>)
      modifies this
      ensures match NextId(old(counters), t)
              case Success(next) => r == Success(next.0) && counters == next.1
              case Failure(e) => r == Failure(e) && counters == old(counters)
    {
      var counter := counters.Get(t);
      if counter > MAX_COUNTER {
        return Failure("SimId counter overflow");
      }
      counters := counters.Set(t, counter + 1);
      r := Success(IdText(t, counter));
    }

    /** Returns false where the source throws. */
    method ReserveSimId(id: string) returns (ok: bool)
      modifies this
      ensures match Reserve(old(counters), id)
              case Success(c) => ok && counters == c
              case Failure(_) => !ok && counters == old(counters)
      ensures ok ==> Reserved(counters, id)
    {
      ReserveIfRead(counters, id);
      var parsed := BigIntOf(id);
      if parsed.None? {
        return false;
      }
      ok := true;
      var t := TypeOfCode(parsed.value / TYPE_UNIT);
      if t.None? {
        return;
      }
      var next := parsed.value % TYPE_UNIT + 1;
      if next > counters.Get(t.value) {
        counters := counters.Set(t.value, next);
      }
    }

    /** The ids before the first one that is not an integer are reserved even so. */
    method SeedSimIdCounters(ids: seq<Option<string>>) returns (ok: bool)
      modifies this
      ensures ok <==> Seed(old(counters), ids).Success?
      ensures ok ==> counters == Seed(old(counters), ids).value
      ensures exists k :: 0 <= k <= |ids| && Seed(old(counters), ids[..k]) == Success(counters)
                          && (k < |ids| ==> Seed(old(counters), ids[..k + 1]).Failure?)
    {
      ghost var c := counters;
      ok := true;
      for i := 0 to |ids|
        invariant Seed(c, ids[..i]) == Success(counters) && ok
      {
        assert ids[..i + 1][..i] == ids[..i];
        if ids[i].Some? && ids[i].value != "" {
          ok := ReserveSimId(ids[i].value);
          if !ok {
            SeedStuck(c, ids, i + 1);
            return;
          }
        }
      }
      assert ids[..|ids|] == ids;
    }
  }

  lemma ReserveIfRead(c: Counters, id: string)
    ensures Reserve(c, id).Success? ==> Reserved(Reserve(c, id).value, id)
  {
    if Reserve(c, id).Success? {
      ReserveReserves(c, id);
    }
  }

  lemma {:induction false} SeedStuck(c: Counters, ids: seq<Option<string>>, k: nat)
    requires k <= |ids| && Seed(c, ids[..k]).Failure?
    ensures Seed(c, ids).Failure?
    decreases |ids| - k
  {
    if k == |ids| {
      assert ids[..k] == ids;
    } else {
      assert ids[..k + 1][..k] == ids[..k];
      SeedStuck(c, ids, k + 1);
    }
  }
}
