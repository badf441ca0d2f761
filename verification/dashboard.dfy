/** The admin dashboard's figures over the tournament list: the four
    statistics, the three most recent rows and each row's "count/limit"
    column. A row counts `registeredTeams || registeredPlayers || 0`, so a
    zero team counter falls back to the player counter. */
module Dashboard {
  import opened Wrappers
  import opened Schemas
  import opened Seqs
  import opened Capacity

  /** The count shown and summed for one tournament. */
  function RowCount(t: Tournament): (r: int)
    ensures t.registeredTeams != 0 ==> r == t.registeredTeams
    ensures t.registeredTeams == 0 ==> r == t.registeredPlayers
  {
    if t.registeredTeams != 0 then t.registeredTeams
    else if t.registeredPlayers != 0 then t.registeredPlayers
    else 0
  }

  /** The sum of `RowCount` over a prefix, accumulated left to right as
      `reduce` does. */
  function TotalTeams(ts: seq<Tournament>): int
    decreases |ts|
  {
    if ts == [] then 0 else TotalTeams(ts[..|ts| - 1]) + RowCount(ts[|ts| - 1])
  }

  function TotalRevenue(ts: seq<Tournament>): int
    decreases |ts|
  {
    if ts == [] then 0
    else TotalRevenue(ts[..|ts| - 1]) + RowCount(ts[|ts| - 1]) * ts[|ts| - 1].entryFee
  }

  predicate IsOngoing(t: Tournament) {
    t.status == Ongoing
  }

  datatype Stats = Stats(totalTournaments: nat, activeTournaments: nat, totalTeams: int, totalRevenue: int)

  function ComputeStats(ts: seq<Tournament>): (r: Stats)
    ensures r.activeTournaments <= r.totalTournaments == |ts|
    ensures r.activeTournaments == 0 <==> forall t :: t in ts ==> t.status != Ongoing
    ensures r.activeTournaments == |ts| <==> forall t :: t in ts ==> t.status == Ongoing
  {
    OngoingCount(ts);
    Stats(|ts|, |Filter(ts, IsOngoing)|, TotalTeams(ts), TotalRevenue(ts))
  }

  /** The ongoing count is zero exactly when nothing is ongoing and full
      exactly when everything is. */
  lemma OngoingCount(ts: seq<Tournament>)
    ensures |Filter(ts, IsOngoing)| == 0 <==> forall t :: t in ts ==> t.status != Ongoing
    ensures |Filter(ts, IsOngoing)| == |ts| <==> forall t :: t in ts ==> t.status == Ongoing
  {
    var active := Filter(ts, IsOngoing);
    if |active| == |ts| {
      FilterIsSubsequence(ts, IsOngoing);
      SameLengthSubsequence(active, ts);
    }
    if forall t :: t in ts ==> IsOngoing(t) {
      FilterAll(ts, IsOngoing);
    }
    if |active| > 0 { assert active[0] in active; }
  }

  /** The statistics of two lists put together are the sums of theirs. */
  lemma {:induction false} StatsAdd(a: seq<Tournament>, b: seq<Tournament>)
    ensures TotalTeams(a + b) == TotalTeams(a) + TotalTeams(b)
    ensures TotalRevenue(a + b) == TotalRevenue(a) + TotalRevenue(b)
    decreases |b|
  {
    if b == [] {
      assert a + b == a;
    } else {
      var b' := b[..|b| - 1];
      StatsAdd(a, b');
      assert (a + b)[..|a + b| - 1] == a + b';
      assert (a + b)[|a + b| - 1] == b[|b| - 1];
    }
  }

  /** When every tournament charges the same fee, revenue is that fee times
      the team total. */
  lemma {:induction false} UniformFeeRevenue(ts: seq<Tournament>, fee: int)
    requires forall i :: 0 <= i < |ts| ==> ts[i].entryFee == fee
    ensures TotalRevenue(ts) == fee * TotalTeams(ts)
    decreases |ts|
  {
    if ts != [] {
      UniformFeeRevenue(ts[..|ts| - 1], fee);
      assert fee * TotalTeams(ts) == fee * TotalTeams(ts[..|ts| - 1]) + fee * RowCount(ts[|ts| - 1]);
    }
  }

  /** With non-negative counters and fees, the totals are non-negative. */
  lemma {:induction false} TotalsNonNegative(ts: seq<Tournament>)
    requires forall i :: 0 <= i < |ts| ==> ts[i].registeredTeams >= 0 && ts[i].registeredPlayers >= 0
    requires forall i :: 0 <= i < |ts| ==> ts[i].entryFee >= 0
    ensures TotalTeams(ts) >= 0 && TotalRevenue(ts) >= 0
    decreases |ts|
  {
    if ts != [] {
      TotalsNonNegative(ts[..|ts| - 1]);
    }
  }

  /** When only the counter a tournament's mode selects has moved (as the
      payment route guarantees), the row count is that counter. */
  lemma RowCountIsModeCounter(t: Tournament, solo: bool)
    requires solo ==> t.registeredTeams == 0
    requires !solo ==> t.registeredPlayers == 0
    ensures RowCount(t) == Current(t, solo)
  {
  }

  /** The "Recent Tournaments" rows: the first three of the list. */
  function RecentRows(ts: seq<Tournament>): (r: seq<Tournament>)
    ensures |r| == if |ts| < 3 then |ts| else 3
    ensures r <= ts
  {
    if |ts| < 3 then ts else ts[..3]
  }

  /** The row's limit, `maxTeams || maxPlayers`: `None` renders as
      "undefined". */
  function RowLimit(t: Tournament): (r: Option<int>)
    ensures t.maxTeams != 0 ==> r == Some(t.maxTeams)
    ensures t.maxTeams == 0 ==> r == t.maxPlayers
  {
    if t.maxTeams != 0 then Some(t.maxTeams) else t.maxPlayers
  }

  /** A solo tournament with both limits set shows the team limit, while
      the payment route admits up to the player limit. */
  lemma RowLimitIgnoresSoloLimit(t: Tournament)
    requires t.maxTeams != 0 && t.maxPlayers.Some? && t.maxPlayers.value != 0
    ensures RowLimit(t) == Some(t.maxTeams)
    ensures MaxCapacity(t, true) == t.maxPlayers.value
  {
  }

  /** The status badge: only "ongoing" reads "Active"; every other status,
      finished and cancelled included, reads "Upcoming". */
  function StatusBadge(t: Tournament): (r: string)
    ensures r == "Active" <==> t.status == Ongoing
    ensures r == "Upcoming" <==> t.status != Ongoing
  {
    if t.status == Ongoing then "Active" else "Upcoming"
  }
}
