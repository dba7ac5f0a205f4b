/** DoCheckin, step by step, for a caller nobody interrupts. */
module CheckinService {
  import opened Prelude
  import opened IsoDates
  import opened Checkin

  ghost predicate Order<T(!new)>(less: (T, T) -> bool) {
    && (forall a, b :: less(a, b) || a == b || less(b, a))
    && (forall a, b, c :: less(a, b) && less(b, c) ==> less(a, c))
    && (forall a :: !less(a, a))
  }

  lemma LessIsAnOrder()
    ensures Order(Less)
  {
    forall a, b ensures Less(a, b) || a == b || Less(b, a) { LessIsTotal(a, b); }
    forall a, b, c | Less(a, b) && Less(b, c) ensures Less(a, c) { LessIsTransitive(a, b, c); }
    forall a ensures !Less(a, a) { LessIsTotal(a, a); }
  }

  lemma {:induction false} Greatest<T(!new)>(rows: set<T>, less: (T, T) -> bool) returns (m: T)
    requires rows != {} && Order(less)
    ensures m in rows && forall s :: s in rows && s != m ==> less(s, m)
    decreases |rows|
  {
    m :| m in rows;
    var rest := rows - {m};
    if rest != {} {
      var k := Greatest(rest, less);
      if less(m, k) { m := k; }
    }
  }

  /** ORDER BY ... DESC LIMIT 30 over the rows no later than `date`. */
  method Latest<T(==, !new)>(rows: set<T>, less: (T, T) -> bool, date: T) returns (list: seq<T>)
    requires Order(less)
    ensures LatestFirst(rows, less, date, list)
  {
    var rest := set s | s in rows && !less(date, s);
    list := [];
    while rest != {} && |list| < LOOK_BACK
      invariant |list| <= LOOK_BACK
      invariant forall s :: s in rest ==> s in rows && !less(date, s)
      invariant forall i :: 0 <= i < |list| ==> list[i] in rows && !less(date, list[i])
      invariant forall i, j :: 0 <= i < j < |list| ==> less(list[j], list[i])
      invariant forall s, i :: s in rest && 0 <= i < |list| ==> less(s, list[i])
      invariant forall s :: s in rows && !less(date, s) ==> s in list || s in rest
      decreases |rest|
    {
      ghost var g := Greatest(rest, less);
      var m :| m in rest && forall s :: s in rest && s != m ==> less(s, m);
      list := list + [m];
      rest := rest - {m};
    }
  }

  datatype Result = Rewarded(streak: int, reward: real) | AlreadyToday | Failed

  /** One account's check-ins, and the rewards credited for them. */
  class CheckinDesk {
    var rows: set<string>
    var credits: seq<real>

    constructor ()
      ensures rows == {} && credits == []
    {
      rows, credits := {}, [];
    }

    /** ON CONFLICT DO NOTHING on (account, day): `conflict` means the row was already there. */
    method Create(today: string, fault: WriteFault) returns (ok: bool, conflict: bool)
      modifies this`rows
      ensures rows == if fault.Applied() then old(rows) + {today} else old(rows)
      ensures ok == (fault.NoFault? && today !in old(rows))
      ensures conflict == (fault.NoFault? && today in old(rows))
    {
      ok, conflict := false, false;
      if fault.FailedBefore? { return; }
      var affected := if today in rows then 0 else 1;
      rows := rows + {today};
      if fault.ReplyLost? { return; }
      ok, conflict := affected != 0, affected == 0;
    }

    /** The streak is today's check-in after the run that ends yesterday, at most 31; the
        reward goes with it, and only the caller whose insert made the row credits it. */
    method DoCheckin(today: string, yesterday: string, countFails: bool, create: WriteFault, credit: WriteFault) returns (r: Result)
      requires Dates(rows) && IsDate(today) && IsDate(yesterday)
      modifies this
      ensures Dates(rows)
      ensures rows == if !countFails && create.Applied() then old(rows) + {today} else old(rows)
      ensures var streak := Min(LOOK_BACK, Run(DaysOf(old(rows)), ParsedDay(yesterday))) + 1;
        && (r.Rewarded? <==> !countFails && create.NoFault? && today !in old(rows) && credit.NoFault?)
        && (r.Rewarded? ==> r == Rewarded(streak, Reward(streak)))
        && credits == if !countFails && create.NoFault? && today !in old(rows) && credit.Applied()
                      then old(credits) + [Reward(streak)] else old(credits)
      ensures r.AlreadyToday? <==> !countFails && create.NoFault? && today in old(rows)
    {
      if countFails { return Failed; }
      LessIsAnOrder();
      var checkins := Latest(rows, Less, yesterday);
      var consecutiveDays := CountConsecutive(rows, yesterday, checkins);
      consecutiveDays := consecutiveDays + 1;
      var reward := CalculateCheckinReward(consecutiveDays);
      var ok, conflict := Create(today, create);
      if conflict { return AlreadyToday; }
      if !ok { return Failed; }
      if credit.Applied() { credits := credits + [reward]; }
      r := if credit.NoFault? then Rewarded(consecutiveDays, reward) else Failed;
    }
  }
}
