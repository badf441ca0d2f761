/** The order-creation route: tournament lookup, capacity gate, gateway
    configuration check, then one payment request to the gateway. The route
    only reads the tournament, so it takes the tournament collection and
    returns no store. The gateway is a function from the request sent to its
    reply. */
module CreateOrder {
  import opened Wrappers
  import opened Text
  import opened Schemas
  import opened Capacity

  /** The two gateway credentials the configuration check requires. */
  datatype GatewayConfig = GatewayConfig(apiKey: Option<string>, authToken: Option<string>)

  /** The payment request posted to the gateway (the fields the model tracks). */
  datatype PaymentRequest = PaymentRequest(purpose: string, amount: string, buyerName: string, email: Option<string>)

  datatype GatewayReply = GatewayAccepted(id: string, longUrl: string, shortUrl: string) | GatewayFailed(message: string)

  datatype OrderResponse =
    | OrderCreated(paymentId: string, longUrl: string, shortUrl: string, amount: int, currency: string)
    | OrderRejected(status: int, error: string)

  /** The response and the request sent to the gateway, if one was sent. */
  datatype OrderOutcome = OrderOutcome(response: OrderResponse, sent: Option<PaymentRequest>)

  /** Database errors, carried as the message the thrown error would have. */
  datatype DbFaults = DbFaults(connect: Option<string>, lookup: Option<string>)

  const TournamentNotFound: string := "Tournament not found"
  const TournamentFull: string := "Tournament is full"
  const DefaultBuyer: string := "Tournament Participant"

  function Failed(message: string): OrderResponse {
    OrderRejected(500, "Failed to create payment order: " + message)
  }

  /** `checkInstamojoConfig`: the names of the unset credentials, in order. */
  function MissingConfig(cfg: GatewayConfig): (r: seq<string>)
    ensures |r| == 0 <==> Filled(cfg.apiKey) && Filled(cfg.authToken)
  {
    (if Filled(cfg.apiKey) then [] else ["INSTAMOJO_API_KEY"])
    + (if Filled(cfg.authToken) then [] else ["INSTAMOJO_AUTH_TOKEN"])
  }

  function MissingConfigMessage(missing: seq<string>): string
    requires |missing| > 0
  {
    "Missing Instamojo environment variables: "
    + (if |missing| == 1 then missing[0] else missing[0] + ", " + missing[1])
  }

  /** `Number.prototype.toString()` of an integer amount. */
  function AmountText(n: int): (r: string)
    ensures n >= 0 ==> r == Decimal(n)
    ensures n < 0 ==> |r| >= 2 && r[0] == '-' && r[1..] == Decimal(-n)
  {
    if n < 0 then "-" + Decimal(-n) else Decimal(n)
  }

  /** `buyer_name: teamName || 'Tournament Participant'`. */
  function BuyerName(teamName: Option<string>): (r: string)
    ensures r != ""
    ensures Filled(teamName) ==> Some(r) == teamName
    ensures !Filled(teamName) ==> r == DefaultBuyer
  {
    if Filled(teamName) then teamName.value else DefaultBuyer
  }

  /** The order route with the solo test as a parameter. */
  function CreateOrderWith(
    isSolo: Option<string> -> bool,
    tournaments: map<string, Tournament>,
    tournamentId: Option<string>, teamName: Option<string>, leaderEmail: Option<string>,
    faults: DbFaults, cfg: GatewayConfig, gateway: PaymentRequest -> GatewayReply): (o: OrderOutcome)
    ensures o.sent.Some? <==>
              faults.connect.None? && faults.lookup.None?
              && tournamentId.Some? && tournamentId.value in tournaments
              && !IsFull(tournaments[tournamentId.value], isSolo(tournaments[tournamentId.value].mode))
              && |MissingConfig(cfg)| == 0
    ensures faults.connect.None? && faults.lookup.None? ==>
              (o.response == OrderRejected(404, TournamentNotFound) <==>
                 tournamentId.None? || tournamentId.value !in tournaments)
    ensures faults.connect.None? && faults.lookup.None? && tournamentId.Some? && tournamentId.value in tournaments ==>
              var t := tournaments[tournamentId.value];
              (o.response == OrderRejected(400, TournamentFull) <==> IsFull(t, isSolo(t.mode)))
    ensures o.response.OrderRejected? && o.sent.None? ==> o.response.status in {400, 404, 500}
    ensures faults.connect.Some? ==> o == OrderOutcome(Failed(faults.connect.value), None)
    ensures faults.connect.None? && faults.lookup.Some? ==> o == OrderOutcome(Failed(faults.lookup.value), None)
    ensures faults.connect.None? && faults.lookup.None? && tournamentId.Some? && tournamentId.value in tournaments
            && !IsFull(tournaments[tournamentId.value], isSolo(tournaments[tournamentId.value].mode))
            && |MissingConfig(cfg)| > 0 ==>
              o == OrderOutcome(Failed(MissingConfigMessage(MissingConfig(cfg))), None)
    ensures o.sent.Some? ==> (o.response.OrderCreated? <==> gateway(o.sent.value).GatewayAccepted?)
    ensures o.sent.Some? && gateway(o.sent.value).GatewayFailed? ==>
              o.response == Failed(gateway(o.sent.value).message)
    ensures o.sent.Some? ==>
              var t := tournaments[tournamentId.value];
              && o.sent.value.buyerName == BuyerName(teamName)
              && o.sent.value.amount == AmountText(t.entryFee)
              && o.sent.value.purpose == "Tournament: " + t.title
              && o.sent.value.email == leaderEmail
    ensures o.response.OrderCreated? ==>
              o.sent.Some? && o.response.currency == "INR"
              && o.response.amount == tournaments[tournamentId.value].entryFee
              && gateway(o.sent.value) == GatewayAccepted(o.response.paymentId, o.response.longUrl, o.response.shortUrl)
  {
    if faults.connect.Some? then OrderOutcome(Failed(faults.connect.value), None)
    else if faults.lookup.Some? then OrderOutcome(Failed(faults.lookup.value), None)
    else if tournamentId.None? || tournamentId.value !in tournaments then
      OrderOutcome(OrderRejected(404, TournamentNotFound), None)
    else
      var t := tournaments[tournamentId.value];
      if IsFull(t, isSolo(t.mode)) then OrderOutcome(OrderRejected(400, TournamentFull), None)
      else if |MissingConfig(cfg)| > 0 then OrderOutcome(Failed(MissingConfigMessage(MissingConfig(cfg))), None)
      else
        var request := PaymentRequest("Tournament: " + t.title, AmountText(t.entryFee), BuyerName(teamName), leaderEmail);
        match gateway(request)
        case GatewayFailed(message) => OrderOutcome(Failed(message), Some(request))
        case GatewayAccepted(id, longUrl, shortUrl) =>
          OrderOutcome(OrderCreated(id, longUrl, shortUrl, t.entryFee, "INR"), Some(request))
  }

  /** `POST /api/payment/create-order` as written: solo only for the exact
      spelling "Solo". */
  function CreateOrder(
    tournaments: map<string, Tournament>,
    tournamentId: Option<string>, teamName: Option<string>, leaderEmail: Option<string>,
    faults: DbFaults, cfg: GatewayConfig, gateway: PaymentRequest -> GatewayReply): (o: OrderOutcome)
    ensures faults.connect.None? && faults.lookup.None? && tournamentId.Some? && tournamentId.value in tournaments ==>
              var t := tournaments[tournamentId.value];
              (o.response == OrderRejected(400, TournamentFull) <==>
                 if t.mode == Some("Solo") then t.registeredPlayers >= NumberOr(t.maxPlayers, t.maxTeams)
                 else t.registeredTeams >= t.maxTeams)
  {
    CreateOrderWith(IsSoloAtOrder, tournaments, tournamentId, teamName, leaderEmail, faults, cfg, gateway)
  }

  /** The order route with the solo test of the verification route, so that
      both routes gate on the same counter. */
  function CreateOrderAligned(
    tournaments: map<string, Tournament>,
    tournamentId: Option<string>, teamName: Option<string>, leaderEmail: Option<string>,
    faults: DbFaults, cfg: GatewayConfig, gateway: PaymentRequest -> GatewayReply): OrderOutcome
  {
    CreateOrderWith(IsSoloAtVerify, tournaments, tournamentId, teamName, leaderEmail, faults, cfg, gateway)
  }

  /** A lower-case "solo" tournament whose players are full but whose team
      counter is not: the order route as written charges the entrant, and the
      verification route then refuses the registration as full. */
  lemma OrderGateDisagreesWithVerify(cfg: GatewayConfig, gateway: PaymentRequest -> GatewayReply)
    requires Filled(cfg.apiKey) && Filled(cfg.authToken)
    ensures var t := Tournament("t1", "Solo Cup", BGMI, "d", 0, 30, 10, Some(2), 0, 2, Upcoming,
                                0, 0, "r", None, Some("solo"), None, 0);
            && CreateOrder(map["t1" := t], Some("t1"), Some("Rahul"), None, DbFaults(None, None), cfg, gateway).sent.Some?
            && IsFull(t, IsSoloAtVerify(t.mode))
  {
    var t := Tournament("t1", "Solo Cup", BGMI, "d", 0, 30, 10, Some(2), 0, 2, Upcoming,
                        0, 0, "r", None, Some("solo"), None, 0);
    OrderDetectionIsNarrower(t.mode);
  }

  /** With the aligned solo test, an order is refused as full exactly when the
      verification route would refuse the same tournament as full. */
  lemma AlignedOrderAgreesWithVerify(
    tournaments: map<string, Tournament>, id: string, teamName: Option<string>, leaderEmail: Option<string>,
    cfg: GatewayConfig, gateway: PaymentRequest -> GatewayReply)
    requires id in tournaments
    ensures var t := tournaments[id];
            CreateOrderAligned(tournaments, Some(id), teamName, leaderEmail, DbFaults(None, None), cfg, gateway).response
              == OrderRejected(400, TournamentFull)
            <==> IsFull(t, IsSoloAtVerify(t.mode))
  {
  }
}
