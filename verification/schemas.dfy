/** The three document schemas the registration flow reads and writes:
    tournaments, teams (with embedded players) and participants. Each
    schema is a datatype for a stored document, an input datatype for what a
    caller hands to `Model.create` (every field may be missing), and a
    creation function that applies the schema's defaults, enum checks and
    required checks exactly as the document mapper does. */
module Schemas {
  import opened Wrappers

  /** The document mapper's `required` check on a string: the value must be
      present and non-empty. It coincides with JavaScript truthiness of an
      optional string, which the route handlers use for their `||` fallbacks. */
  predicate Filled(s: Option<string>) {
    s.Some? && s.value != ""
  }

  // ---------------------------------------------------------------- enums

  datatype Game = BGMI | FreeFire

  datatype TournamentStatus = Upcoming | Ongoing | Finished | Cancelled

  datatype PaymentStatus = Pending | Paid | PaymentFailed

  datatype ParticipantStatus = Registered | Joined | Dropped | Banned

  function GameName(g: Game): string {
    match g
    case BGMI => "BGMI"
    case FreeFire => "FreeFire"
  }

  function TournamentStatusName(s: TournamentStatus): string {
    match s
    case Upcoming => "upcoming"
    case Ongoing => "ongoing"
    case Finished => "completed"
    case Cancelled => "cancelled"
  }

  function PaymentStatusName(s: PaymentStatus): string {
    match s
    case Pending => "pending"
    case Paid => "completed"
    case PaymentFailed => "failed"
  }

  function ParticipantStatusName(s: ParticipantStatus): string {
    match s
    case Registered => "REGISTERED"
    case Joined => "JOINED"
    case Dropped => "DROPPED"
    case Banned => "BANNED"
  }

  /** The enum validator: only the listed spellings, compared exactly. */
  function ParseGame(s: string): (r: Option<Game>)
    ensures r.Some? <==> s == "BGMI" || s == "FreeFire"
    ensures r.Some? ==> GameName(r.value) == s
  {
    if s == "BGMI" then Some(BGMI) else if s == "FreeFire" then Some(FreeFire) else None
  }

  function ParseTournamentStatus(s: string): (r: Option<TournamentStatus>)
    ensures r.Some? <==> s in ["upcoming", "ongoing", "completed", "cancelled"]
    ensures r.Some? ==> TournamentStatusName(r.value) == s
  {
    if s == "upcoming" then Some(Upcoming)
    else if s == "ongoing" then Some(Ongoing)
    else if s == "completed" then Some(Finished)
    else if s == "cancelled" then Some(Cancelled)
    else None
  }

  function ParsePaymentStatus(s: string): (r: Option<PaymentStatus>)
    ensures r.Some? <==> s in ["pending", "completed", "failed"]
    ensures r.Some? ==> PaymentStatusName(r.value) == s
  {
    if s == "pending" then Some(Pending)
    else if s == "completed" then Some(Paid)
    else if s == "failed" then Some(PaymentFailed)
    else None
  }

  function ParseParticipantStatus(s: string): (r: Option<ParticipantStatus>)
    ensures r.Some? <==> s in ["REGISTERED", "JOINED", "DROPPED", "BANNED"]
    ensures r.Some? ==> ParticipantStatusName(r.value) == s
  {
    if s == "REGISTERED" then Some(Registered)
    else if s == "JOINED" then Some(Joined)
    else if s == "DROPPED" then Some(Dropped)
    else if s == "BANNED" then Some(Banned)
    else None
  }

  /** An optional enum field: absent takes the default, present must parse. */
  function EnumOrDefault<E>(given: Option<string>, parse: string -> Option<E>, default: E): Option<E> {
    match given
    case None => Some(default)
    case Some(s) => parse(s)
  }

  // ----------------------------------------------------------- tournament

  /** A stored tournament document. Dates are epoch milliseconds. */
  datatype Tournament = Tournament(
    id: string,
    title: string,
    game: Game,
    description: string,
    prizePool: int,
    entryFee: int,
    maxTeams: int,
    maxPlayers: Option<int>,
    registeredTeams: int,
    registeredPlayers: int,
    status: TournamentStatus,
    startDate: int,
    endDate: int,
    rules: string,
    mapType: Option<string>,
    mode: Option<string>,
    image: Option<string>,
    createdAt: int)

  datatype TournamentInput = TournamentInput(
    title: Option<string>,
    game: Option<string>,
    description: Option<string>,
    prizePool: Option<int>,
    entryFee: Option<int>,
    maxTeams: Option<int>,
    maxPlayers: Option<int>,
    registeredTeams: Option<int>,
    registeredPlayers: Option<int>,
    status: Option<string>,
    startDate: Option<int>,
    endDate: Option<int>,
    rules: Option<string>,
    mapType: Option<string>,
    mode: Option<string>,
    image: Option<string>)

  /** The stored-document invariant the tournament schema enforces. Nothing in
      it relates the registration counters to `maxTeams` or `maxPlayers`. */
  predicate ValidTournament(t: Tournament) {
    t.title != "" && t.description != "" && t.rules != ""
  }

  /** What the tournament schema accepts. */
  predicate AcceptableTournament(input: TournamentInput) {
    && Filled(input.title)
    && input.game.Some? && ParseGame(input.game.value).Some?
    && Filled(input.description)
    && input.prizePool.Some?
    && input.maxTeams.Some?
    && (input.status.None? || ParseTournamentStatus(input.status.value).Some?)
    && input.startDate.Some?
    && input.endDate.Some?
    && Filled(input.rules)
  }

  /** `Tournament.create(input)`: defaults first (entry fee and counters 0,
      status upcoming, creation time now), then the enum and required checks. */
  function CreateTournament(id: string, input: TournamentInput, now: int): (r: Option<Tournament>)
    ensures r.Some? <==> AcceptableTournament(input)
    ensures r.Some? ==> ValidTournament(r.value) && r.value.id == id && r.value.createdAt == now
    ensures r.Some? ==> Some(r.value.title) == input.title && Some(GameName(r.value.game)) == input.game
    ensures r.Some? ==> r.value.maxPlayers == input.maxPlayers && Some(r.value.maxTeams) == input.maxTeams
    ensures r.Some? ==> Some(r.value.description) == input.description && Some(r.value.rules) == input.rules
    ensures r.Some? ==> Some(r.value.prizePool) == input.prizePool
    ensures r.Some? ==> Some(r.value.startDate) == input.startDate && Some(r.value.endDate) == input.endDate
    ensures r.Some? ==> r.value.mode == input.mode && r.value.mapType == input.mapType && r.value.image == input.image
    ensures r.Some? ==> r.value.entryFee == input.entryFee.GetOr(0)
    ensures r.Some? ==> r.value.registeredTeams == input.registeredTeams.GetOr(0)
    ensures r.Some? ==> r.value.registeredPlayers == input.registeredPlayers.GetOr(0)
    ensures r.Some? && input.status.None? ==> r.value.status == Upcoming
    ensures r.Some? && input.status.Some? ==> TournamentStatusName(r.value.status) == input.status.value
  {
    var status := EnumOrDefault(input.status, ParseTournamentStatus, Upcoming);
    if !AcceptableTournament(input) || status.None? then None
    else
      Some(Tournament(
        id, input.title.value, ParseGame(input.game.value).value, input.description.value,
        input.prizePool.value, input.entryFee.GetOr(0), input.maxTeams.value, input.maxPlayers,
        input.registeredTeams.GetOr(0), input.registeredPlayers.GetOr(0), status.value,
        input.startDate.value, input.endDate.value, input.rules.value,
        input.mapType, input.mode, input.image, now))
  }

  /** The schema stores a tournament whose counters already exceed its capacity. */
  lemma SchemaDoesNotBoundCounters()
    ensures exists input: TournamentInput ::
      var t := CreateTournament("t", input, 0);
      t.Some? && t.value.registeredTeams > t.value.maxTeams
  {
    var input := TournamentInput(
      Some("Cup"), Some("BGMI"), Some("d"), Some(0), None, Some(1), None, Some(5), None,
      None, Some(0), Some(0), Some("r"), None, None, None);
    assert CreateTournament("t", input, 0).Some?;
  }

  // ----------------------------------------------------------------- team

  datatype Player = Player(name: string, inGameId: string, role: Option<string>)

  /** A stored team document. */
  datatype Team = Team(
    id: string,
    teamName: string,
    leaderName: string,
    leaderEmail: string,
    leaderPhone: string,
    leaderWhatsApp: Option<string>,
    players: seq<Player>,
    tournament: string,
    paymentStatus: PaymentStatus,
    paymentId: Option<string>,
    registrationDate: int)

  /** A player as submitted; `phone` is not a schema path and is dropped. */
  datatype PlayerInput = PlayerInput(
    name: Option<string>,
    inGameId: Option<string>,
    role: Option<string>,
    phone: Option<string>)

  datatype TeamInput = TeamInput(
    teamName: Option<string>,
    leaderName: Option<string>,
    leaderEmail: Option<string>,
    leaderPhone: Option<string>,
    leaderWhatsApp: Option<string>,
    players: seq<PlayerInput>,
    tournament: Option<string>,
    paymentStatus: Option<string>,
    paymentId: Option<string>)

  predicate ValidPlayer(p: Player) {
    p.name != "" && p.inGameId != ""
  }

  predicate ValidTeam(t: Team) {
    && t.teamName != "" && t.leaderName != "" && t.leaderEmail != "" && t.leaderPhone != ""
    && t.tournament != ""
    && forall i :: 0 <= i < |t.players| ==> ValidPlayer(t.players[i])
  }

  predicate AcceptablePlayer(p: PlayerInput) {
    Filled(p.name) && Filled(p.inGameId)
  }

  /** What the team schema accepts. */
  predicate AcceptableTeam(input: TeamInput) {
    && Filled(input.teamName) && Filled(input.leaderName)
    && Filled(input.leaderEmail) && Filled(input.leaderPhone)
    && Filled(input.tournament)
    && (input.paymentStatus.None? || ParsePaymentStatus(input.paymentStatus.value).Some?)
    && forall i :: 0 <= i < |input.players| ==> AcceptablePlayer(input.players[i])
  }

  function ToPlayer(p: PlayerInput): (r: Player)
    requires AcceptablePlayer(p)
    ensures ValidPlayer(r)
  {
    Player(p.name.value, p.inGameId.value, p.role)
  }

  /** `Team.create(input)`: payment status defaults to pending, every required
      path (including each player's name and in-game id) must be filled. */
  function CreateTeam(id: string, input: TeamInput, now: int): (r: Option<Team>)
    ensures r.Some? <==> AcceptableTeam(input)
    ensures r.Some? ==> ValidTeam(r.value) && r.value.id == id && r.value.registrationDate == now
    ensures r.Some? ==> Some(r.value.teamName) == input.teamName && Some(r.value.leaderName) == input.leaderName
    ensures r.Some? ==> Some(r.value.leaderEmail) == input.leaderEmail && Some(r.value.leaderPhone) == input.leaderPhone
    ensures r.Some? ==> Some(r.value.tournament) == input.tournament && r.value.paymentId == input.paymentId
    ensures r.Some? ==> r.value.leaderWhatsApp == input.leaderWhatsApp
    ensures r.Some? ==> |r.value.players| == |input.players|
    ensures r.Some? ==> forall i :: 0 <= i < |input.players| ==>
              Some(r.value.players[i].name) == input.players[i].name
              && Some(r.value.players[i].inGameId) == input.players[i].inGameId
              && r.value.players[i].role == input.players[i].role
    ensures r.Some? && input.paymentStatus.None? ==> r.value.paymentStatus == Pending
    ensures r.Some? && input.paymentStatus.Some? ==> PaymentStatusName(r.value.paymentStatus) == input.paymentStatus.value
  {
    var status := EnumOrDefault(input.paymentStatus, ParsePaymentStatus, Pending);
    if !AcceptableTeam(input) || status.None? then None
    else
      var players := seq(|input.players|, i requires 0 <= i < |input.players| => ToPlayer(input.players[i]));
      Some(Team(
        id, input.teamName.value, input.leaderName.value, input.leaderEmail.value,
        input.leaderPhone.value, input.leaderWhatsApp, players, input.tournament.value,
        status.value, input.paymentId, now))
  }

  // ---------------------------------------------------------- participant

  /** A stored participant document. */
  datatype Participant = Participant(
    tournament: string,
    team: string,
    participantId: string,
    name: string,
    email: string,
    inGameId: string,
    role: string,
    status: ParticipantStatus,
    joinedAt: int,
    teamLeader: bool,
    paymentId: Option<string>)

  datatype ParticipantInput = ParticipantInput(
    tournament: Option<string>,
    team: Option<string>,
    participantId: Option<string>,
    name: Option<string>,
    email: Option<string>,
    inGameId: Option<string>,
    role: Option<string>,
    status: Option<string>,
    joinedAt: Option<int>,
    teamLeader: Option<bool>,
    paymentId: Option<string>)

  predicate ValidParticipant(p: Participant) {
    && p.tournament != "" && p.team != "" && p.participantId != ""
    && p.name != "" && p.email != "" && p.inGameId != "" && p.role != ""
  }

  /** What the participant schema accepts. */
  predicate AcceptableParticipant(input: ParticipantInput) {
    && Filled(input.tournament) && Filled(input.team) && Filled(input.participantId)
    && Filled(input.name) && Filled(input.email) && Filled(input.inGameId) && Filled(input.role)
    && (input.status.None? || ParseParticipantStatus(input.status.value).Some?)
  }

  /** Participant document validation: status defaults to REGISTERED, the
      team-leader flag to false and the join time to now. */
  function CreateParticipant(input: ParticipantInput, now: int): (r: Option<Participant>)
    ensures r.Some? <==> AcceptableParticipant(input)
    ensures r.Some? ==> ValidParticipant(r.value) && Some(r.value.participantId) == input.participantId
    ensures r.Some? ==> r.value.teamLeader == input.teamLeader.GetOr(false)
    ensures r.Some? ==> r.value.joinedAt == input.joinedAt.GetOr(now) && r.value.paymentId == input.paymentId
    ensures r.Some? && input.status.None? ==> r.value.status == Registered
    ensures r.Some? && input.status.Some? ==> ParticipantStatusName(r.value.status) == input.status.value
  {
    var status := EnumOrDefault(input.status, ParseParticipantStatus, Registered);
    if !AcceptableParticipant(input) || status.None? then None
    else
      Some(Participant(
        input.tournament.value, input.team.value, input.participantId.value, input.name.value,
        input.email.value, input.inGameId.value, input.role.value, status.value,
        input.joinedAt.GetOr(now), input.teamLeader.GetOr(false), input.paymentId))
  }

  predicate UniqueParticipantIds(ps: seq<Participant>) {
    forall i, j :: 0 <= i < j < |ps| ==> ps[i].participantId != ps[j].participantId
  }

  datatype InsertError = ValidationFailed | DuplicateParticipantId

  /** `Participant.create(input)` against the stored collection: validation
      first, then the unique index on `participantId`. */
  function InsertParticipant(existing: seq<Participant>, input: ParticipantInput, now: int)
    : (r: Result<seq<Participant>, InsertError>)
    ensures r.Err? && r.error == ValidationFailed <==> !AcceptableParticipant(input)
    ensures r.Err? && r.error == DuplicateParticipantId <==>
              AcceptableParticipant(input)
              && exists i :: 0 <= i < |existing| && Some(existing[i].participantId) == input.participantId
    ensures r.Ok? ==> |r.value| == |existing| + 1 && r.value[..|existing|] == existing
    ensures r.Ok? ==> Some(r.value[|existing|]) == CreateParticipant(input, now)
    ensures UniqueParticipantIds(existing) && r.Ok? ==> UniqueParticipantIds(r.value)
  {
    match CreateParticipant(input, now)
    case None => Err(ValidationFailed)
    case Some(p) =>
      if exists i :: 0 <= i < |existing| && existing[i].participantId == p.participantId
      then Err(DuplicateParticipantId)
      else Ok(existing + [p])
  }
}
