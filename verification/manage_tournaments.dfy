/** The admin "Manage Tournaments" delete handler. A confirmed delete of an
    id made only of decimal digits (the page's built-in demo rows) drops the
    row locally; any other id is sent to the delete endpoint and the row is
    dropped only when the server reports success. The user's answer to the
    confirmation prompt and the server's reply are parameters. */
module ManageTournaments {
  import opened Wrappers
  import opened Text
  import opened Schemas
  import opened Seqs

  /** The server's answer to `DELETE /api/tournaments/<id>`; `DeleteThrew`
      covers a network failure or an unreadable body. */
  datatype DeleteReply = DeleteSucceeded | DeleteFailed(error: Option<string>) | DeleteThrew

  datatype DeleteOutcome = DeleteOutcome(
    list: seq<Tournament>,
    alert: Option<string>,
    request: Option<string>)

  /** `/^\d+$/`: one or more ASCII digits. */
  predicate IsMockId(id: string) {
    |id| > 0 && AllDigits(id)
  }

  function ConfirmPrompt(title: string): string {
    "Are you sure you want to delete \"" + title + "\"? This cannot be undone."
  }

  function Without(list: seq<Tournament>, id: string): (r: seq<Tournament>)
    ensures forall t :: t in r <==> t in list && t.id != id
  {
    Filter(list, (t: Tournament) => t.id != id)
  }

  function HandleDelete(list: seq<Tournament>, id: string, confirmed: bool, reply: DeleteReply): (r: DeleteOutcome)
    ensures !confirmed ==> r == DeleteOutcome(list, None, None)
    ensures confirmed ==> r.alert.Some?
    ensures r.request.Some? <==> confirmed && !IsMockId(id)
    ensures r.request.Some? ==> r.request.value == "/api/tournaments/" + id
    ensures r.list == list || r.list == Without(list, id)
    ensures r.list != list ==> r.list == Without(list, id) && confirmed && (IsMockId(id) || reply == DeleteSucceeded)
    ensures confirmed && (IsMockId(id) || reply == DeleteSucceeded) ==> r.list == Without(list, id)
  {
    if !confirmed then DeleteOutcome(list, None, None)
    else if IsMockId(id) then
      DeleteOutcome(Without(list, id), Some("Mock tournament deleted successfully! (Demo data)"), None)
    else
      var request := Some("/api/tournaments/" + id);
      match reply
      case DeleteSucceeded => DeleteOutcome(Without(list, id), Some("Tournament deleted successfully!"), request)
      case DeleteFailed(error) => DeleteOutcome(list, Some("Error: " + TemplateText(error)), request)
      case DeleteThrew => DeleteOutcome(list, Some("Failed to delete tournament. Please try again."), request)
  }

  /** Removal drops every row with the id and keeps the others, all their
      copies, in their order. */
  lemma WithoutKeepsOthers(list: seq<Tournament>, id: string)
    ensures IsSubsequence(Without(list, id), list)
    ensures forall t: Tournament :: t.id != id ==> multiset(Without(list, id))[t] == multiset(list)[t]
    ensures forall t: Tournament :: t.id == id ==> t !in Without(list, id)
  {
    FilterIsSubsequence(list, (t: Tournament) => t.id != id);
    FilterMultiplicity(list, (t: Tournament) => t.id != id);
  }

  /** Deleting an id that is not listed changes nothing. */
  lemma WithoutAbsentId(list: seq<Tournament>, id: string)
    requires forall i :: 0 <= i < |list| ==> list[i].id != id
    ensures Without(list, id) == list
  {
    FilterAll(list, (t: Tournament) => t.id != id);
  }

  /** Deleting twice is deleting once. */
  lemma WithoutIdempotent(list: seq<Tournament>, id: string)
    ensures Without(Without(list, id), id) == Without(list, id)
  {
    var once := Without(list, id);
    assert forall i :: 0 <= i < |once| ==> once[i].id != id by {
      forall i | 0 <= i < |once| ensures once[i].id != id {
        assert once[i] in once;
      }
    }
    WithoutAbsentId(once, id);
  }

  /** Only ids made solely of digits are treated as demo rows; a database
      object id is not. */
  lemma MockIdExamples()
    ensures IsMockId("2") && IsMockId("042")
    ensures !IsMockId("") && !IsMockId("68dde379b53864f33bb8dd55")
  {
    assert !IsDigit("68dde379b53864f33bb8dd55"[2]);
  }
}
