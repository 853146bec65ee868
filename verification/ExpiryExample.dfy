/** A run of the leave service in which an expiry takes a balance below zero: the days of one year are carried
    over, HR takes three of them away, and the expiry takes all six. */
module ExpiryExample {
  import opened Common
  import opened Calendar
  import opened LeaveRules
  import opened LeaveAccrual
  import opened LeaveLedger
  import opened SmallLedger
  import LedgerInvariants

  const HIRED := Ymd(2024, 1, 1)
  const KEEP := Policy(1, None, 0, 0, 6, 3)

  function Plain(p: Policy, balances: map<Key, Balance>): Ledger { WithoutRequests(Small(HIRED, p, balances)) }

  const OLD := Balance(6, 0, 0, 0, 0, 0, true, None, false)
  const CARRIED := Balance(0, 6, 0, 0, 0, 0, true, CarryOverExpiry(2025, 3), false)

  const EVENTS := Setup(HIRED) + [RunningJob(AccrualJob, Ymd(2024, 6, 1), 0, 10)] + [SettingPolicies([KEEP])]
                  + [RunningJob(AccrualJob, Ymd(2025, 1, 2), 0, 10)] + [Adjusting(K(2025), -3)]
                  + [RunningJob(ExpiryJob, Ymd(2025, 4, 1), 0, 10)]

  /** The dates of the run, in their years. */
  lemma Dates()
    ensures Year(Ymd(2024, 6, 1)) == 2024 && Year(Ymd(2025, 1, 2)) == 2025 && Year(Ymd(2025, 4, 1)) == 2025
    ensures HIRED <= Ymd(2024, 6, 1) && HIRED <= Ymd(2025, 1, 2)
    ensures CarryOverExpiry(2025, 3) == Some(Ymd(2025, 4, 1))
  {
    hide Year, DaysBeforeYear, IsLeap;
    YearOfDate(2024, 6, 1);
    YearOfDate(2025, 1, 2);
    YearOfDate(2025, 4, 1);
    YearGrows(2024);
  }

  lemma FirstYear()
    ensures Next(Plain(GRANT, map[]), RunningJob(AccrualJob, Ymd(2024, 6, 1), 0, 10)) ==
            Plain(GRANT, map[K(2024) := OLD])
  {
    hide RunChunk, Year, Ymd, Accrued;
    Dates();
    AccrueOne(HIRED, GRANT, map[], Ymd(2024, 6, 1), 0, 10);
    RowOf(HIRED, GRANT, map[], 2024, Ymd(2024, 6, 1));
  }

  lemma SecondYear()
    ensures Next(Plain(KEEP, map[K(2024) := OLD]), RunningJob(AccrualJob, Ymd(2025, 1, 2), 0, 10)) ==
            Plain(KEEP, map[K(2024) := OLD, K(2025) := CARRIED])
  {
    hide RunChunk, Year, Ymd, Accrued, CarryOverExpiry;
    Dates();
    AccrueOne(HIRED, KEEP, map[K(2024) := OLD], Ymd(2025, 1, 2), 0, 10);
    RowOf(HIRED, KEEP, map[K(2024) := OLD], 2025, Ymd(2025, 1, 2));
  }

  lemma Corrected()
    ensures Next(Plain(KEEP, map[K(2024) := OLD, K(2025) := CARRIED]), Adjusting(K(2025), -3)) ==
            Plain(KEEP, map[K(2024) := OLD, K(2025) := CARRIED.(adjusted := -3)])
  {
    hide CarryOverExpiry;
  }

  /** The expiry on 1 April finds the row and closes it. */
  lemma Closed()
    ensures var l := Plain(KEEP, map[K(2024) := OLD, K(2025) := CARRIED.(adjusted := -3)]);
            var l' := Next(l, RunningJob(ExpiryJob, Ymd(2025, 4, 1), 0, 10));
            K(2025) in l'.store.balances && l'.store.balances[K(2025)].Available() == -3
  {
    hide CountsFor, Year, Ymd, CarryOverExpiry;
    Dates();
    var st := Small(HIRED, KEEP, map[K(2024) := OLD, K(2025) := CARRIED.(adjusted := -3)]);
    assert FallsDue(st, Ymd(2025, 4, 1), K(2025));
    assert K(2025) in ChunkKeys(ExpiryJob, st, Ymd(2025, 4, 1), 0, 10);
  }

  /** A balance can go below zero in a run the service takes step by step, though every correction is checked. */
  lemma ExpiryCanGoNegative()
    ensures var l := After(EMPTY, EVENTS);
            LedgerInvariants.Inv(l) && K(2025) in l.store.balances && l.store.balances[K(2025)].Available() == -3
  {
    hide Next, LedgerInvariants.Inv, Ymd;
    LedgerInvariants.AlwaysInv(EVENTS);
    var e3, e4 := RunningJob(AccrualJob, Ymd(2024, 6, 1), 0, 10), SettingPolicies([KEEP]);
    var e5 := RunningJob(AccrualJob, Ymd(2025, 1, 2), 0, 10);
    var e6, e7 := Adjusting(K(2025), -3), RunningJob(ExpiryJob, Ymd(2025, 4, 1), 0, 10);
    SetUp(HIRED);
    OneMore(EMPTY, Setup(HIRED), e3);
    FirstYear();
    OneMore(EMPTY, Setup(HIRED) + [e3], e4);
    PolicyChanges();
    OneMore(EMPTY, Setup(HIRED) + [e3] + [e4], e5);
    SecondYear();
    OneMore(EMPTY, Setup(HIRED) + [e3] + [e4] + [e5], e6);
    Corrected();
    OneMore(EMPTY, Setup(HIRED) + [e3] + [e4] + [e5] + [e6], e7);
    Closed();
  }

  lemma PolicyChanges()
    ensures Next(Plain(GRANT, map[K(2024) := OLD]), SettingPolicies([KEEP])) == Plain(KEEP, map[K(2024) := OLD])
  {}
}
