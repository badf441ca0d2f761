/** The admin "Team Registrations" page: the CSV export of the selected
    tournament's teams, the three counters above the list and each team's
    payment badge. The locale date formatting is the parameter `formatDate`. */
module TeamRegistrations {
  import opened Schemas
  import opened Seqs
  import opened Strings

  const Headers: seq<string> :=
    ["Team Name", "Leader Name", "Email", "Phone", "Players", "Payment Status", "Registration Date"]

  function PlayerEntry(p: Player): string {
    p.name + " (" + p.inGameId + ")"
  }

  function PlayerEntries(ps: seq<Player>): (r: seq<string>)
    ensures |r| == |ps|
    ensures forall i :: 0 <= i < |ps| ==> r[i] == PlayerEntry(ps[i])
  {
    seq(|ps|, i requires 0 <= i < |ps| => PlayerEntry(ps[i]))
  }

  /** The "Players" cell: `name (inGameId)` entries separated by "; ". */
  function PlayersCell(ps: seq<Player>): string {
    JoinWith(PlayerEntries(ps), "; ")
  }

  /** The seven cells of a team's row, in header order. */
  function Cells(t: Team, formatDate: int -> string): (r: seq<string>)
    ensures |r| == |Headers|
    ensures Headers[0] == "Team Name" && r[0] == t.teamName
    ensures Headers[1] == "Leader Name" && r[1] == t.leaderName
    ensures Headers[2] == "Email" && r[2] == t.leaderEmail
    ensures Headers[3] == "Phone" && r[3] == t.leaderPhone
    ensures Headers[4] == "Players" && r[4] == PlayersCell(t.players)
    ensures Headers[5] == "Payment Status" && r[5] == PaymentStatusName(t.paymentStatus)
    ensures Headers[6] == "Registration Date" && r[6] == formatDate(t.registrationDate)
  {
    [t.teamName, t.leaderName, t.leaderEmail, t.leaderPhone, PlayersCell(t.players),
     PaymentStatusName(t.paymentStatus), formatDate(t.registrationDate)]
  }

  /** Cells are wrapped in double quotes; nothing inside is escaped. */
  function Quote(c: string): string {
    "\"" + c + "\""
  }

  function Quoted(cells: seq<string>): (r: seq<string>)
    ensures |r| == |cells|
    ensures forall i :: 0 <= i < |cells| ==> r[i] == Quote(cells[i])
  {
    seq(|cells|, i requires 0 <= i < |cells| => Quote(cells[i]))
  }

  function Row(cells: seq<string>): string {
    Join(Quoted(cells), ',')
  }

  /** The column names joined by commas, unquoted. */
  const HeaderLine: string := Join(Headers, ',')

  function RowLines(teams: seq<Team>, formatDate: int -> string): (r: seq<string>)
    ensures |r| == |teams|
    ensures forall i :: 0 <= i < |teams| ==> r[i] == Row(Cells(teams[i], formatDate))
  {
    seq(|teams|, i requires 0 <= i < |teams| => Row(Cells(teams[i], formatDate)))
  }

  /** The header line, then one line per team. */
  function CsvLines(teams: seq<Team>, formatDate: int -> string): (r: seq<string>)
    ensures |r| == 1 + |teams| && r[0] == HeaderLine && r[1..] == RowLines(teams, formatDate)
  {
    [HeaderLine] + RowLines(teams, formatDate)
  }

  /** The downloaded file: the lines joined by line feeds. It opens with the
      header line, which is the whole file when there are no teams and is
      otherwise followed by a line feed. */
  function ExportCsv(teams: seq<Team>, formatDate: int -> string): (r: string)
    ensures |r| >= |HeaderLine| && r[..|HeaderLine|] == HeaderLine
    ensures |teams| == 0 ==> r == HeaderLine
    ensures |teams| > 0 ==> |r| > |HeaderLine| && r[|HeaderLine|] == '\n'
  {
    var lines := CsvLines(teams, formatDate);
    if |teams| == 0 then
      assert lines == [HeaderLine];
      Join(lines, '\n')
    else
      assert Join(lines, '\n') == HeaderLine + ['\n'] + Join(lines[1..], '\n');
      Join(lines, '\n')
  }

  predicate CellsFree(teams: seq<Team>, formatDate: int -> string, c: char) {
    forall i, j :: 0 <= i < |teams| && 0 <= j < |Headers| ==> c !in Cells(teams[i], formatDate)[j]
  }

  /** The header splits back into the seven column names. */
  lemma HeaderColumns()
    ensures Split(HeaderLine, ',') == Headers
  {
    SplitJoin(Headers, ',');
  }

  /** Without line feeds in the cells, the export has one line per team after
      the header, and splitting it on line feeds gives those lines back. */
  lemma ExportLines(teams: seq<Team>, formatDate: int -> string)
    requires CellsFree(teams, formatDate, '\n')
    ensures Split(ExportCsv(teams, formatDate), '\n') == CsvLines(teams, formatDate)
    ensures |Split(ExportCsv(teams, formatDate), '\n')| == 1 + |teams|
  {
    var lines := CsvLines(teams, formatDate);
    HeaderHasNoLineFeed();
    forall i | 0 < i < |lines| ensures '\n' !in lines[i] {
      assert lines[i] == RowLines(teams, formatDate)[i - 1];
      RowKeepsOut(Cells(teams[i - 1], formatDate), '\n');
    }
    SplitJoin(lines, '\n');
  }

  lemma HeaderHasNoLineFeed()
    ensures '\n' !in HeaderLine
  {
    JoinAddsOnlySeparator(Headers, ',', '\n');
  }

  /** A row holds no character other than commas and quotes that its cells
      do not hold. */
  lemma RowKeepsOut(cells: seq<string>, c: char)
    requires c != ',' && c != '"'
    requires forall j :: 0 <= j < |cells| ==> c !in cells[j]
    ensures c !in Row(cells)
  {
    var q := Quoted(cells);
    forall j | 0 <= j < |q| ensures c !in q[j] {
      assert q[j] == "\"" + cells[j] + "\"";
    }
    JoinAddsOnlySeparator(q, ',', c);
  }

  lemma QuoteOccurrences(c: string, d: char)
    requires d != '"'
    ensures Occurrences(Quote(c), d) == Occurrences(c, d)
  {
    OccurrencesAppend("\"", c, d);
    OccurrencesAppend("\"" + c, "\"", d);
  }

  lemma {:induction false} QuotedOccurrences(cells: seq<string>, d: char)
    requires d != '"'
    ensures TotalOccurrences(Quoted(cells), d) == TotalOccurrences(cells, d)
    decreases |cells|
  {
    if |cells| > 0 {
      QuotedOccurrences(cells[1..], d);
      QuoteOccurrences(cells[0], d);
      assert Quoted(cells)[1..] == Quoted(cells[1..]);
    }
  }

  /** A row reads back as as many fields as it has cells plus the commas
      inside them, so a comma in a cell shifts every later column. */
  lemma RowFieldCount(cells: seq<string>)
    requires |cells| >= 1
    ensures |Split(Row(cells), ',')| == |cells| + TotalOccurrences(cells, ',')
  {
    SplitLength(Row(cells), ',');
    JoinWithOneChar(Quoted(cells), ',');
    JoinWithOccurrences(Quoted(cells), [','], ',');
    QuotedOccurrences(cells, ',');
  }

  /** Without commas in the cells, a row reads back as exactly its quoted cells. */
  lemma RowRoundTrip(cells: seq<string>)
    requires |cells| >= 1
    requires forall i :: 0 <= i < |cells| ==> ',' !in cells[i]
    ensures Split(Row(cells), ',') == Quoted(cells)
  {
    forall i | 0 <= i < |cells| ensures ',' !in Quoted(cells)[i] {
      QuoteOccurrences(cells[i], ',');
    }
    SplitJoin(Quoted(cells), ',');
  }

  /** The players cell has one "; "-separated entry per player when no name
      or in-game id contains ';'. */
  lemma PlayersCellEntries(ps: seq<Player>)
    requires |ps| >= 1
    requires forall i :: 0 <= i < |ps| ==> ';' !in ps[i].name && ';' !in ps[i].inGameId
    ensures |Split(PlayersCell(ps), ';')| == |ps|
  {
    var entries := PlayerEntries(ps);
    assert TotalOccurrences(entries, ';') == 0 by {
      EntriesWithoutSemicolon(ps);
    }
    JoinWithOccurrences(entries, "; ", ';');
    SplitLength(PlayersCell(ps), ';');
  }

  lemma {:induction false} EntriesWithoutSemicolon(ps: seq<Player>)
    requires forall i :: 0 <= i < |ps| ==> ';' !in ps[i].name && ';' !in ps[i].inGameId
    ensures TotalOccurrences(PlayerEntries(ps), ';') == 0
    decreases |ps|
  {
    if |ps| > 0 {
      EntriesWithoutSemicolon(ps[1..]);
      assert PlayerEntries(ps)[1..] == PlayerEntries(ps[1..]);
      var p := ps[0];
      OccurrencesAppend(p.name, " (", ';');
      OccurrencesAppend(p.name + " (", p.inGameId, ';');
      OccurrencesAppend(p.name + " (" + p.inGameId, ")", ';');
    }
  }

  // -------------------------------------------------------------- counters

  predicate IsCompleted(t: Team) { t.paymentStatus == Paid }
  predicate IsPending(t: Team) { t.paymentStatus == Pending }
  predicate IsFailed(t: Team) { t.paymentStatus == PaymentFailed }

  datatype Counters = Counters(total: nat, completed: nat, pending: nat)

  function CountTeams(teams: seq<Team>): (r: Counters)
    ensures r.total == |teams|
    ensures r.completed + r.pending == |teams| - |Filter(teams, IsFailed)|
  {
    StatusPartition(teams);
    Counters(|teams|, |Filter(teams, IsCompleted)|, |Filter(teams, IsPending)|)
  }

  /** The counters start at zero, and one more team raises the total and
      exactly the counter of its own payment state by one. */
  lemma CountTeamsSnoc(teams: seq<Team>, t: Team)
    ensures CountTeams([]) == Counters(0, 0, 0)
    ensures CountTeams(teams + [t]).total == CountTeams(teams).total + 1
    ensures CountTeams(teams + [t]).completed == CountTeams(teams).completed + (if t.paymentStatus == Paid then 1 else 0)
    ensures CountTeams(teams + [t]).pending == CountTeams(teams).pending + (if t.paymentStatus == Pending then 1 else 0)
  {
    FilterAppend(teams, [t], IsCompleted);
    FilterAppend(teams, [t], IsPending);
    FilterCons(t, [], IsCompleted);
    FilterCons(t, [], IsPending);
    assert [t] + [] == [t];
  }

  /** Every team is in exactly one of the three payment states. */
  lemma {:induction false} StatusPartition(teams: seq<Team>)
    ensures |Filter(teams, IsCompleted)| + |Filter(teams, IsPending)| + |Filter(teams, IsFailed)| == |teams|
    decreases |teams|
  {
    if |teams| > 0 {
      StatusPartition(teams[1..]);
    }
  }

  /** The card's badge: "Paid" only for a completed payment. */
  function Badge(t: Team): (r: string)
    ensures r == "Paid" <==> t.paymentStatus == Paid
    ensures r == "Pending" <==> t.paymentStatus != Paid
  {
    if t.paymentStatus == Paid then "Paid" else "Pending"
  }

  /** A failed payment wears the "Pending" badge but is left out of the
      "Payment Pending" counter. */
  lemma FailedLooksPendingButIsNotCounted(teams: seq<Team>, i: nat)
    requires i < |teams| && teams[i].paymentStatus == PaymentFailed
    ensures Badge(teams[i]) == "Pending"
    ensures teams[i] !in Filter(teams, IsPending)
    ensures CountTeams(teams).completed + CountTeams(teams).pending < |teams|
  {
    assert teams[i] in Filter(teams, IsFailed);
  }
}
