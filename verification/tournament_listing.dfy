/** The public tournament listing: three filter selections (game, mode,
    status), each either "All" or a value compared exactly with the
    tournament's field, the "Slots Full" test on each card, and the choice
    between the cards, the empty-catalogue message and the no-match message. */
module TournamentListing {
  import opened Wrappers
  import opened Schemas
  import opened Seqs

  datatype Filters = Filters(game: string, mode: string, status: string)

  /** The initial selection, restored by "Clear Filters". */
  const AllFilters: Filters := Filters("All", "All", "All")

  predicate Matches(t: Tournament, f: Filters) {
    && (f.game == "All" || GameName(t.game) == f.game)
    && (f.mode == "All" || t.mode == Some(f.mode))
    && (f.status == "All" || TournamentStatusName(t.status) == f.status)
  }

  function FilterTournaments(ts: seq<Tournament>, f: Filters): (r: seq<Tournament>)
    ensures forall t :: t in r <==> t in ts && Matches(t, f)
  {
    Filter(ts, t => Matches(t, f))
  }

  /** The filtered list keeps the catalogue's order and every copy of each
      matching tournament, and drops every non-matching one. */
  lemma FilterKeepsOrderAndCopies(ts: seq<Tournament>, f: Filters)
    ensures IsSubsequence(FilterTournaments(ts, f), ts)
    ensures forall t :: multiset(FilterTournaments(ts, f))[t] == if Matches(t, f) then multiset(ts)[t] else 0
  {
    FilterIsSubsequence(ts, t => Matches(t, f));
    FilterMultiplicity(ts, t => Matches(t, f));
  }

  /** With every selection at "All" the whole catalogue is shown. */
  lemma AllFiltersShowEverything(ts: seq<Tournament>)
    ensures FilterTournaments(ts, AllFilters) == ts
  {
    FilterAll(ts, t => Matches(t, AllFilters));
  }

  /** A tournament without a mode only survives a mode selection of "All". */
  lemma MissingModeOnlyMatchesAll(t: Tournament, f: Filters)
    requires t.mode.None?
    ensures Matches(t, f) ==> f.mode == "All"
  {
  }

  /** The card's registration link is disabled once the team counter reaches
      `maxTeams`, whatever the mode. */
  predicate SlotsFull(t: Tournament) {
    t.registeredTeams >= t.maxTeams
  }

  function RegisterLabel(t: Tournament): (r: string)
    ensures r == "Slots Full" <==> t.registeredTeams >= t.maxTeams
    ensures r == "Register Now" <==> t.registeredTeams < t.maxTeams
  {
    if SlotsFull(t) then "Slots Full" else "Register Now"
  }

  /** The card ignores the player counters that solo tournaments use. */
  lemma SlotsFullIgnoresPlayers(t: Tournament, players: int, maxPlayers: Option<int>, mode: Option<string>)
    ensures RegisterLabel(t) == RegisterLabel(t.(registeredPlayers := players, maxPlayers := maxPlayers, mode := mode))
  {
  }

  datatype View = Cards(shown: seq<Tournament>) | NoTournaments | NoMatch

  function ListingView(ts: seq<Tournament>, f: Filters): (r: View)
    ensures r.Cards? <==> exists t :: t in ts && Matches(t, f)
    ensures r.Cards? ==> r.shown == FilterTournaments(ts, f)
    ensures r == NoTournaments <==> ts == []
    ensures r == NoMatch <==> ts != [] && forall t :: t in ts ==> !Matches(t, f)
  {
    var shown := FilterTournaments(ts, f);
    if |shown| > 0 then
      assert shown[0] in shown;
      Cards(shown)
    else if |ts| == 0 then NoTournaments
    else NoMatch
  }

  /** "Clear Filters" on the no-match message brings back every card. */
  lemma ClearFiltersShowsAll(ts: seq<Tournament>, f: Filters)
    requires ListingView(ts, f) == NoMatch
    ensures ListingView(ts, AllFilters) == Cards(ts)
  {
    AllFiltersShowEverything(ts);
    assert ts[0] in ts;
  }
}
