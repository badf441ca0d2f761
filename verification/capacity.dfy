/** The capacity gate both payment routes apply before registering. */
module Capacity {
  import opened Wrappers
  import opened Text
  import opened Schemas

  /** Solo detection in the payment-verification route: the optional mode,
      lower-cased, equals "solo"; a missing mode is team mode. */
  predicate IsSoloAtVerify(mode: Option<string>) {
    mode.Some? && Lower(mode.value) == "solo"
  }

  /** Solo detection in the order-creation route: exact spelling "Solo". */
  predicate IsSoloAtOrder(mode: Option<string>) {
    mode == Some("Solo")
  }

  /** JavaScript `a || b` on an optional number: `a` unless it is missing or 0. */
  function NumberOr(a: Option<int>, b: int): (r: int)
    ensures a.Some? && a.value != 0 ==> r == a.value
    ensures a.None? || a.value == 0 ==> r == b
  {
    if a.Some? && a.value != 0 then a.value else b
  }

  /** The counter the gate reads for the given mode. */
  function Current(t: Tournament, solo: bool): int {
    if solo then t.registeredPlayers else t.registeredTeams
  }

  /** The bound the gate compares against: for solo `maxPlayers || maxTeams`. */
  function MaxCapacity(t: Tournament, solo: bool): (r: int)
    ensures !solo ==> r == t.maxTeams
    ensures solo && (t.maxPlayers.None? || t.maxPlayers.value == 0) ==> r == t.maxTeams
    ensures solo && t.maxPlayers.Some? && t.maxPlayers.value != 0 ==> r == t.maxPlayers.value
  {
    if solo then NumberOr(t.maxPlayers, t.maxTeams) else t.maxTeams
  }

  /** The route answers "Tournament is full" exactly when this holds: the
      counter of the mode reaches its bound, where a solo bound of 0 or none
      falls back to the team bound. */
  function IsFull(t: Tournament, solo: bool): (r: bool)
    ensures !solo ==> (r <==> t.registeredTeams >= t.maxTeams)
    ensures solo && t.maxPlayers.Some? && t.maxPlayers.value != 0 ==> (r <==> t.registeredPlayers >= t.maxPlayers.value)
    ensures solo && (t.maxPlayers.None? || t.maxPlayers.value == 0) ==> (r <==> t.registeredPlayers >= t.maxTeams)
  {
    Current(t, solo) >= MaxCapacity(t, solo)
  }

  /** Case-insensitive solo detection, stated letter by letter. */
  lemma SoloAtVerifyIff(mode: string)
    ensures IsSoloAtVerify(Some(mode)) <==>
              |mode| == 4 && (mode[0] == 's' || mode[0] == 'S') && (mode[1] == 'o' || mode[1] == 'O')
              && (mode[2] == 'l' || mode[2] == 'L') && (mode[3] == 'o' || mode[3] == 'O')
  {
    if IsSoloAtVerify(Some(mode)) {
      assert |mode| == 4;
      assert Lower(mode)[0] == 's' && Lower(mode)[1] == 'o' && Lower(mode)[2] == 'l' && Lower(mode)[3] == 'o';
    }
    if |mode| == 4 && (mode[0] == 's' || mode[0] == 'S') && (mode[1] == 'o' || mode[1] == 'O')
       && (mode[2] == 'l' || mode[2] == 'L') && (mode[3] == 'o' || mode[3] == 'O') {
      assert Lower(mode) == "solo";
    }
  }

  /** Every mode the order route treats as solo is solo at verification too,
      but not conversely: "solo", "SOLO" and the like are team mode at order
      time and solo mode at verification. */
  lemma OrderDetectionIsNarrower(mode: Option<string>)
    ensures IsSoloAtOrder(mode) ==> IsSoloAtVerify(mode)
    ensures IsSoloAtVerify(Some("solo")) && !IsSoloAtOrder(Some("solo"))
    ensures IsSoloAtVerify(Some("SOLO")) && !IsSoloAtOrder(Some("SOLO"))
  {
    SoloAtVerifyIff("Solo");
    SoloAtVerifyIff("solo");
    SoloAtVerifyIff("SOLO");
  }

  /** A zero capacity is always full while the counters are non-negative. */
  lemma ZeroCapacityIsFull(t: Tournament, solo: bool)
    requires MaxCapacity(t, solo) == 0
    requires t.registeredTeams >= 0 && t.registeredPlayers >= 0
    ensures IsFull(t, solo)
  {
  }

  /** The counter the mode selects after one registration. */
  function Increment(t: Tournament, solo: bool): (r: Tournament)
    ensures Current(r, solo) == Current(t, solo) + 1
    ensures Current(r, !solo) == Current(t, !solo)
    ensures MaxCapacity(r, solo) == MaxCapacity(t, solo)
    ensures r.(registeredTeams := t.registeredTeams, registeredPlayers := t.registeredPlayers) == t
  {
    if solo then t.(registeredPlayers := t.registeredPlayers + 1)
    else t.(registeredTeams := t.registeredTeams + 1)
  }

  /** Admitting one registration never pushes the counter past the bound. */
  lemma IncrementWhenAdmittedStaysWithin(t: Tournament, solo: bool)
    requires !IsFull(t, solo)
    ensures Current(Increment(t, solo), solo) <= MaxCapacity(Increment(t, solo), solo)
  {
  }
}
