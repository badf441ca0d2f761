/** The payment-verification route: signature gate, tournament lookup,
    capacity gate, solo normalisation, team-field check, then two separate
    writes (the team document, then the tournament counter) and an
    in-memory participant record for the first player. The database is an
    immutable `Store` value threaded through the call; each I/O step that can
    throw is a flag in `Faults`. */
module VerifyPayment {
  import opened Wrappers
  import opened Text
  import opened Schemas
  import opened Capacity
  import opened Signature
  import opened ParticipantIds

  datatype Store = Store(
    tournaments: map<string, Tournament>,
    teams: seq<Team>,
    participants: seq<Participant>)

  /** The request body: gateway proof plus the registration payload. */
  datatype Request = Request(
    orderId: string,
    paymentId: string,
    signature: string,
    teamData: TeamInput)

  /** Which step throws: connecting, the keyed hash (its secret is unset,
      and `createHmac` refuses an undefined key), the tournament lookup,
      `Team.create` and `tournament.save()`. */
  datatype Faults = Faults(connect: bool, missingSecret: bool, lookup: bool, create: bool, save: bool)

  /** What the route draws from outside the request: the keyed hash, the
      faults, the id the database assigns to the new team, the clock and the
      random draw used for the participant id. */
  datatype Environment = Environment(
    hmac: string -> string,
    faults: Faults,
    newTeamId: string,
    now: nat,
    fraction: string)

  datatype Response = Confirmed(team: Team) | Rejected(status: int, error: string)

  /** The response, the store afterwards, and the participant list the route
      builds locally (and never writes). */
  datatype Outcome = Outcome(response: Response, store: Store, participants: seq<ParticipantInput>)

  const InvalidSignature: string := "Invalid payment signature"
  const TournamentNotFound: string := "Tournament not found"
  const TournamentFull: string := "Tournament is full"
  const MissingTeamFields: string := "Team name and leader name are required for team registration"
  const VerifyFailed: string := "Failed to verify payment"
  const UnknownEmail: string := "unknown@example.com"

  /** `teamData.players?.[0]`. */
  function FirstPlayer(d: TeamInput): Option<PlayerInput> {
    if |d.players| > 0 then Some(d.players[0]) else None
  }

  function FirstPlayerName(d: TeamInput): Option<string> {
    if |d.players| > 0 then d.players[0].name else None
  }

  function FirstPlayerPhone(d: TeamInput): Option<string> {
    if |d.players| > 0 then d.players[0].phone else None
  }

  /** The document handed to `Team.create`: the payload with payment status
      "completed" and the gateway payment id; in solo mode the leader name,
      team name and phone are synthesised from the first player. */
  function TeamDataToSave(d: TeamInput, paymentId: string, solo: bool): (r: TeamInput)
    ensures r.paymentStatus == Some("completed") && r.paymentId == Some(paymentId)
    ensures r.players == d.players && r.tournament == d.tournament
    ensures r.leaderEmail == d.leaderEmail && r.leaderWhatsApp == d.leaderWhatsApp
    ensures !solo ==> r.teamName == d.teamName && r.leaderName == d.leaderName && r.leaderPhone == d.leaderPhone
    ensures solo ==> Filled(r.teamName) && Filled(r.leaderName)
    ensures solo && Filled(FirstPlayerName(d)) ==> r.leaderName == FirstPlayerName(d)
    ensures solo && !Filled(FirstPlayerName(d)) ==> r.leaderName == Some("Solo Player")
    ensures solo ==> r.teamName == Some(TemplateText(FirstPlayerName(d)) + " (Solo)")
    ensures solo && Filled(d.leaderPhone) ==> r.leaderPhone == d.leaderPhone
    ensures solo && !Filled(d.leaderPhone) && Filled(FirstPlayerPhone(d)) ==> r.leaderPhone == FirstPlayerPhone(d)
    ensures solo && !Filled(d.leaderPhone) && !Filled(FirstPlayerPhone(d)) ==> r.leaderPhone == Some("")
  {
    var base := d.(paymentStatus := Some("completed"), paymentId := Some(paymentId));
    if !solo then base
    else
      var name := FirstPlayerName(d);
      var phone := FirstPlayerPhone(d);
      base.(
        leaderName := Some(if Filled(name) then name.value else "Solo Player"),
        teamName := Some(TemplateText(name) + " (Solo)"),
        leaderPhone := Some(if Filled(d.leaderPhone) then d.leaderPhone.value
                            else if Filled(phone) then phone.value else ""))
  }

  /** The participant record built for the saved team's first player. */
  function FirstParticipant(tournamentId: string, team: Team, d: TeamInput, env: Environment): ParticipantInput
    requires |team.players| > 0
  {
    ParticipantInput(
      Some(tournamentId), Some(team.id), Some(Generate(tournamentId, env.fraction, env.now)),
      Some(team.players[0].name),
      Some(if Filled(d.leaderEmail) then d.leaderEmail.value else UnknownEmail),
      Some(team.players[0].inGameId), None, Some("JOINED"), Some(env.now), None, None)
  }

  /** The team document the request would save, once the tournament is known. */
  function DocFor(store: Store, req: Request): TeamInput
    requires req.teamData.tournament.Some? && req.teamData.tournament.value in store.tournaments
  {
    var t := store.tournaments[req.teamData.tournament.value];
    TeamDataToSave(req.teamData, req.paymentId, IsSoloAtVerify(t.mode))
  }

  // The stages a request passes, each implying the previous one.

  predicate SignatureOk(req: Request, env: Environment) {
    !env.faults.connect && !env.faults.missingSecret
    && VerifyPaymentSignature(env.hmac, req.orderId, req.paymentId, req.signature)
  }

  predicate TournamentFound(store: Store, req: Request, env: Environment) {
    SignatureOk(req, env) && !env.faults.lookup
    && req.teamData.tournament.Some? && req.teamData.tournament.value in store.tournaments
  }

  predicate CapacityOk(store: Store, req: Request, env: Environment) {
    TournamentFound(store, req, env)
    && var t := store.tournaments[req.teamData.tournament.value];
       !IsFull(t, IsSoloAtVerify(t.mode))
  }

  predicate FieldsOk(store: Store, req: Request, env: Environment) {
    CapacityOk(store, req, env)
    && var t := store.tournaments[req.teamData.tournament.value];
       (IsSoloAtVerify(t.mode) || (Filled(req.teamData.teamName) && Filled(req.teamData.leaderName)))
  }

  /** `Team.create` succeeds on the document. */
  predicate CreateSucceeds(store: Store, req: Request, env: Environment)
    requires req.teamData.tournament.Some? && req.teamData.tournament.value in store.tournaments
  {
    !env.faults.create && AcceptableTeam(DocFor(store, req))
  }

  /** The team document was written. */
  predicate TeamWritten(store: Store, req: Request, env: Environment) {
    FieldsOk(store, req, env) && CreateSucceeds(store, req, env)
  }

  /** The two writes once every check has passed: `Team.create`, then
      `Save`. */
  function Commit(store: Store, req: Request, env: Environment): (o: Outcome)
    requires FieldsOk(store, req, env)
    ensures o.store.participants == store.participants
    ensures o.store.tournaments.Keys == store.tournaments.Keys
    ensures |o.participants| <= 1
    ensures !CreateSucceeds(store, req, env) ==> o.store == store && o.participants == []
    ensures CreateSucceeds(store, req, env) ==> |o.store.teams| == |store.teams| + 1
    ensures o.response.Confirmed? <==> CreateSucceeds(store, req, env) && !env.faults.save
  {
    var id := req.teamData.tournament.value;
    if env.faults.create then Outcome(Rejected(500, VerifyFailed), store, [])
    else
      match CreateTeam(env.newTeamId, DocFor(store, req), env.now)
      case None => Outcome(Rejected(500, VerifyFailed), store, [])
      case Some(team) => Save(store.(teams := store.teams + [team]), id, team, req, env)
  }

  /** After the team is stored: the counter increment through
      `tournament.save()`, then the local participant record. */
  function Save(written: Store, id: string, team: Team, req: Request, env: Environment): (o: Outcome)
    requires id in written.tournaments
    ensures o.store.participants == written.participants && o.store.teams == written.teams
    ensures o.store.tournaments.Keys == written.tournaments.Keys
    ensures |o.participants| <= 1
    ensures o.response.Confirmed? <==> !env.faults.save
    ensures env.faults.save ==> o.store == written && o.participants == []
  {
    var t := written.tournaments[id];
    if env.faults.save then Outcome(Rejected(500, VerifyFailed), written, [])
    else
      var saved := written.(tournaments := written.tournaments[id := Increment(t, IsSoloAtVerify(t.mode))]);
      var participants := if |team.players| > 0 then [FirstParticipant(id, team, req.teamData, env)] else [];
      Outcome(Confirmed(team), saved, participants)
  }

  /** `POST /api/payment/verify`. */
  function Verify(store: Store, req: Request, env: Environment): (o: Outcome)
    ensures o.store.participants == store.participants
    ensures o.store.tournaments.Keys == store.tournaments.Keys
    ensures |o.participants| <= 1
    ensures !TeamWritten(store, req, env) ==> o.store == store && o.participants == []
    ensures TeamWritten(store, req, env) ==> |o.store.teams| == |store.teams| + 1
    ensures o.response.Confirmed? <==> TeamWritten(store, req, env) && !env.faults.save
  {
    if env.faults.connect || env.faults.missingSecret then Outcome(Rejected(500, VerifyFailed), store, [])
    else if !VerifyPaymentSignature(env.hmac, req.orderId, req.paymentId, req.signature) then
      Outcome(Rejected(400, InvalidSignature), store, [])
    else if env.faults.lookup then Outcome(Rejected(500, VerifyFailed), store, [])
    else if req.teamData.tournament.None? || req.teamData.tournament.value !in store.tournaments then
      Outcome(Rejected(404, TournamentNotFound), store, [])
    else
      var t := store.tournaments[req.teamData.tournament.value];
      var solo := IsSoloAtVerify(t.mode);
      if IsFull(t, solo) then Outcome(Rejected(400, TournamentFull), store, [])
      else
        var doc := TeamDataToSave(req.teamData, req.paymentId, solo);
        if !solo && (!Filled(doc.teamName) || !Filled(doc.leaderName)) then
          Outcome(Rejected(400, MissingTeamFields), store, [])
        else Commit(store, req, env)
  }

  /** The rejections come in the order signature, tournament, capacity, team
      fields; each answers with its own status and message and writes nothing. */
  lemma RejectionOrder(store: Store, req: Request, env: Environment)
    ensures var o := Verify(store, req, env);
      && (env.faults.connect || env.faults.missingSecret ==> o.response == Rejected(500, VerifyFailed))
      && (o.response == Rejected(400, InvalidSignature) <==>
            !env.faults.connect && !env.faults.missingSecret && !SignatureOk(req, env))
      && (o.response == Rejected(404, TournamentNotFound) <==>
            SignatureOk(req, env) && !env.faults.lookup && !TournamentFound(store, req, env))
      && (o.response == Rejected(400, TournamentFull) <==>
            TournamentFound(store, req, env) && !CapacityOk(store, req, env))
      && (o.response == Rejected(400, MissingTeamFields) <==>
            CapacityOk(store, req, env) && !FieldsOk(store, req, env))
      && (o.response.Rejected? && o.response.status != 500 ==> o.store == store && o.participants == [])
  {
  }

  /** A successful registration saves the payload as a paid team of that
      tournament and raises exactly the counter its mode selects by one. */
  lemma SuccessEffect(store: Store, req: Request, env: Environment)
    requires Verify(store, req, env).response.Confirmed?
    ensures var o := Verify(store, req, env);
            var id := req.teamData.tournament.value;
            var t := store.tournaments[id];
            var solo := IsSoloAtVerify(t.mode);
      && id in store.tournaments
      && o.store.teams == store.teams + [o.response.team]
      && o.response.team.paymentStatus == Paid
      && o.response.team.paymentId == Some(req.paymentId)
      && o.response.team.tournament == id
      && o.response.team.id == env.newTeamId
      && Some(o.response.team) == CreateTeam(env.newTeamId, DocFor(store, req), env.now)
      && Some(o.response.team.leaderEmail) == req.teamData.leaderEmail
      && Some(o.response.team.leaderPhone) == DocFor(store, req).leaderPhone
      && (!solo ==> Some(o.response.team.leaderPhone) == req.teamData.leaderPhone)
      && o.response.team.leaderWhatsApp == req.teamData.leaderWhatsApp
      && |o.response.team.players| == |req.teamData.players|
      && (forall i :: 0 <= i < |req.teamData.players| ==>
            && Some(o.response.team.players[i].name) == req.teamData.players[i].name
            && Some(o.response.team.players[i].inGameId) == req.teamData.players[i].inGameId
            && o.response.team.players[i].role == req.teamData.players[i].role)
      && o.store.tournaments[id].mode == t.mode
      && Current(o.store.tournaments[id], solo) == Current(t, solo) + 1
      && Current(o.store.tournaments[id], !solo) == Current(t, !solo)
      && (forall k :: k in store.tournaments && k != id ==> o.store.tournaments[k] == store.tournaments[k])
  {
  }

  /** In team mode the saved names are the submitted ones; in solo mode they
      come from the first player. */
  lemma SavedNames(store: Store, req: Request, env: Environment)
    requires Verify(store, req, env).response.Confirmed?
    ensures var team := Verify(store, req, env).response.team;
            var t := store.tournaments[req.teamData.tournament.value];
      && (!IsSoloAtVerify(t.mode) ==>
            Some(team.teamName) == req.teamData.teamName && Some(team.leaderName) == req.teamData.leaderName)
      && (IsSoloAtVerify(t.mode) ==>
            team.teamName == TemplateText(FirstPlayerName(req.teamData)) + " (Solo)"
            && (Filled(FirstPlayerName(req.teamData)) ==> Some(team.leaderName) == FirstPlayerName(req.teamData))
            && (!Filled(FirstPlayerName(req.teamData)) ==> team.leaderName == "Solo Player"))
  {
  }

  /** A failing `tournament.save()` answers 500 yet leaves the paid team
      written and every counter as it was. */
  lemma SaveFailureLeavesTeam(store: Store, req: Request, env: Environment)
    requires TeamWritten(store, req, env) && env.faults.save
    ensures var o := Verify(store, req, env);
      && o.response == Rejected(500, VerifyFailed)
      && o.store.tournaments == store.tournaments
      && |o.store.teams| == |store.teams| + 1 && o.store.teams[..|store.teams|] == store.teams
      && o.store.teams[|store.teams|].paymentStatus == Paid
  {
    assert (store.teams + [Verify(store, req, env).store.teams[|store.teams|]])[..|store.teams|] == store.teams;
  }

  /** At most one participant record is built, for the first player only,
      with status JOINED and a generated participant id; it is never written,
      and the participant schema would refuse it because it has no role. */
  lemma ParticipantRecord(store: Store, req: Request, env: Environment)
    ensures var o := Verify(store, req, env);
      && (|o.participants| == 1 <==> o.response.Confirmed? && |o.response.team.players| > 0)
      && o.store.participants == store.participants
      && (|o.participants| == 1 ==>
            var p := o.participants[0];
            var id := req.teamData.tournament.value;
            && p.status == Some("JOINED")
            && p.participantId == Some(Generate(id, env.fraction, env.now))
            && p.tournament == Some(id) && p.team == Some(o.response.team.id)
            && p.name == Some(o.response.team.players[0].name)
            && p.email == Some(o.response.team.leaderEmail)
            && CreateParticipant(p, env.now).None?)
  {
  }

  // -------------------------------------------------------------- invariants

  /** Every tournament's mode-selected counter is within its bound. */
  predicate WithinCapacity(store: Store) {
    forall id :: id in store.tournaments ==>
      var t := store.tournaments[id];
      Current(t, IsSoloAtVerify(t.mode)) <= MaxCapacity(t, IsSoloAtVerify(t.mode))
  }

  /** One verification call, whatever its outcome, keeps every counter within
      its bound. */
  lemma VerifyKeepsCapacity(store: Store, req: Request, env: Environment)
    requires WithinCapacity(store)
    ensures WithinCapacity(Verify(store, req, env).store)
  {
    var o := Verify(store, req, env);
    if o.response.Confirmed? {
      var id := req.teamData.tournament.value;
      forall k | k in o.store.tournaments
        ensures var t := o.store.tournaments[k];
                Current(t, IsSoloAtVerify(t.mode)) <= MaxCapacity(t, IsSoloAtVerify(t.mode))
      {
        if k == id {
          var t := store.tournaments[id];
          IncrementWhenAdmittedStaysWithin(t, IsSoloAtVerify(t.mode));
        }
      }
    }
  }

  /** Requests handled one after another. */
  function RunAll(store: Store, reqs: seq<Request>, envs: seq<Environment>): Store
    requires |reqs| == |envs|
    decreases |reqs|
  {
    if |reqs| == 0 then store
    else RunAll(Verify(store, reqs[0], envs[0]).store, reqs[1..], envs[1..])
  }

  /** Confirmed registrations never push a counter past its bound, however
      many requests arrive one after another. */
  lemma {:induction false} RunAllKeepsCapacity(store: Store, reqs: seq<Request>, envs: seq<Environment>)
    requires |reqs| == |envs|
    requires WithinCapacity(store)
    ensures WithinCapacity(RunAll(store, reqs, envs))
    decreases |reqs|
  {
    if |reqs| > 0 {
      VerifyKeepsCapacity(store, reqs[0], envs[0]);
      RunAllKeepsCapacity(Verify(store, reqs[0], envs[0]).store, reqs[1..], envs[1..]);
    }
  }

  /** Number of paid teams registered for tournament `id`. */
  function PaidTeams(teams: seq<Team>, id: string): nat {
    if |teams| == 0 then 0
    else PaidTeams(teams[..|teams| - 1], id)
         + (if teams[|teams| - 1].tournament == id && teams[|teams| - 1].paymentStatus == Paid then 1 else 0)
  }

  /** Each tournament's mode-selected counter equals its number of paid teams. */
  predicate CountsMatch(store: Store) {
    forall id :: id in store.tournaments ==>
      var t := store.tournaments[id];
      Current(t, IsSoloAtVerify(t.mode)) == PaidTeams(store.teams, id)
  }

  /** Without a failing save, counters keep matching the paid teams. */
  lemma VerifyKeepsCountsWithoutSaveFault(store: Store, req: Request, env: Environment)
    requires CountsMatch(store)
    requires !env.faults.save
    ensures CountsMatch(Verify(store, req, env).store)
  {
    var o := Verify(store, req, env);
    if o.response.Confirmed? {
      SuccessEffect(store, req, env);
      var id := req.teamData.tournament.value;
      var team := o.response.team;
      forall k | k in o.store.tournaments
        ensures var t := o.store.tournaments[k];
                Current(t, IsSoloAtVerify(t.mode)) == PaidTeams(o.store.teams, k)
      {
        PaidTeamsAppend(store.teams, team, k);
      }
    }
  }

  lemma PaidTeamsAppend(teams: seq<Team>, team: Team, id: string)
    ensures PaidTeams(teams + [team], id)
            == PaidTeams(teams, id) + if team.tournament == id && team.paymentStatus == Paid then 1 else 0
  {
    assert (teams + [team])[..|teams|] == teams;
  }

  /** A failing save breaks that correspondence: the paid team is counted by
      nobody. */
  lemma SaveFaultBreaksCounts(store: Store, req: Request, env: Environment)
    requires CountsMatch(store)
    requires TeamWritten(store, req, env) && env.faults.save
    ensures !CountsMatch(Verify(store, req, env).store)
  {
    var o := Verify(store, req, env);
    var id := req.teamData.tournament.value;
    var team := o.store.teams[|store.teams|];
    SaveFailureLeavesTeam(store, req, env);
    assert o.store.teams == store.teams + [team];
    PaidTeamsAppend(store.teams, team, id);
  }
}
