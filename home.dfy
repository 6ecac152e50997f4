/**
 * The prediction page (app/page.tsx): choosing a race fills the form,
 * and the Predict handler decides between asking for a prediction by race
 * identifier, refusing a blank manual search, and posting a search with
 * the optional form fields. The network exchange itself is a parameter.
 */
module Home {
  import opened Wrappers
  import opened Races

  // ---------------------------------------------------------------------
  // String.prototype.trim
  // ---------------------------------------------------------------------

  /**
   * The characters `trim` removes: ECMAScript WhiteSpace (tab, vertical
   * tab, form feed, space, no-break space, byte-order mark and the other
   * Unicode space separators) and LineTerminator (line feed, carriage
   * return, line and paragraph separator).
   */
  predicate IsJsWhitespace(c: char) {
    var n := c as int;
    n == 0x09 || n == 0x0A || n == 0x0B || n == 0x0C || n == 0x0D || n == 0x20 ||
    n == 0xA0 || n == 0x1680 || (0x2000 <= n <= 0x200A) || n == 0x2028 ||
    n == 0x2029 || n == 0x202F || n == 0x205F || n == 0x3000 || n == 0xFEFF
  }

  /** Every character of `s` is whitespace (the empty string included). */
  predicate IsBlank(s: string) {
    forall i :: 0 <= i < |s| ==> IsJsWhitespace(s[i])
  }

  /** `s` with its leading whitespace removed: the longest suffix not starting with whitespace. */
  function TrimStart(s: string): (r: string)
    ensures |r| <= |s| && r == s[|s| - |r|..]
    ensures r == [] || !IsJsWhitespace(r[0])
    ensures forall i :: 0 <= i < |s| - |r| ==> IsJsWhitespace(s[i])
  {
    if s != [] && IsJsWhitespace(s[0]) then
      var r := TrimStart(s[1..]);
      assert forall i :: 1 <= i < |s| ==> s[i] == s[1..][i - 1];
      r
    else
      s
  }

  /** `s` with its trailing whitespace removed: the longest prefix not ending in whitespace. */
  function TrimEnd(s: string): (r: string)
    ensures |r| <= |s| && r == s[..|r|]
    ensures r == [] || !IsJsWhitespace(r[|r| - 1])
    ensures forall i :: |r| <= i < |s| ==> IsJsWhitespace(s[i])
  {
    if s != [] && IsJsWhitespace(s[|s| - 1]) then
      var r := TrimEnd(s[..|s| - 1]);
      assert forall i :: 0 <= i < |s| - 1 ==> s[i] == s[..|s| - 1][i];
      r
    else
      s
  }

  /**
   * `s.trim()`. The result is empty exactly when `s` is blank, which is
   * what the page's `!raceName.trim()` tests.
   */
  function Trim(s: string): (r: string)
    ensures r == [] <==> IsBlank(s)
    ensures r == [] || (!IsJsWhitespace(r[0]) && !IsJsWhitespace(r[|r| - 1]))
  {
    var start := TrimStart(s);
    var r := TrimEnd(start);
    r
  }

  // ---------------------------------------------------------------------
  // The request decision of handlePredict
  // ---------------------------------------------------------------------

  /** Which half of the form is shown: the race picker or the manual search. */
  datatype SearchMode = Select | Manual

  /**
   * The JSON body of the search request. `None` is `undefined`, which
   * `JSON.stringify` leaves out.
   */
  datatype PredictBody = PredictBody(
    raceName: Option<string>,
    circuitName: Option<string>,
    raceDate: Option<string>,
    raceId: Option<int>)

  /** The two endpoints the page calls. */
  datatype PredictRequest =
    | GetById(raceId: int)          // GET {apiUrl}/predict/{raceId}
    | PostSearch(body: PredictBody) // POST {apiUrl}/predict

  /** What pressing Predict leads to: a request, or a validation error and no request. */
  datatype Decision = Send(request: PredictRequest) | Reject(message: string)

  /** The validation message for a blank manual search. */
  const ValidationMessage: string := "Please enter a race name or select a race"

  /** `s || undefined`: the empty string is falsy. */
  function TextOrUndefined(s: string): (r: Option<string>)
    ensures r.None? <==> s == ""
    ensures r.GetOr("") == s
  {
    if s == "" then None else Some(s)
  }

  /** `selectedRaceId || undefined`: `null` and `0` are falsy. */
  function IdOrUndefined(id: Option<int>): (r: Option<int>)
    ensures r.None? <==> !IsTruthyId(id)
    ensures r.GetOr(0) == id.GetOr(0)
  {
    if IsTruthyId(id) then id else None
  }

  /**
   * The branch structure of `handlePredict`:
   *  - select mode with a truthy race identifier: GET by identifier;
   *  - otherwise, manual mode with a blank race name: the validation error;
   *  - otherwise: POST with each field present exactly when it is truthy.
   */
  function ChooseRequest(mode: SearchMode, selectedRaceId: Option<int>,
                         raceName: string, circuitName: string, raceDate: string): (d: Decision)
    ensures d.Send? && d.request.GetById? <==> mode == Select && IsTruthyId(selectedRaceId)
    ensures d.Send? && d.request.GetById? ==> d.request.raceId == selectedRaceId.value
    ensures d.Reject? <==> mode == Manual && IsBlank(raceName)
    ensures d.Reject? ==> d.message == ValidationMessage
    ensures d.Send? && d.request.PostSearch? ==>
              var body := d.request.body;
              (body.raceName.None? <==> raceName == "") &&
              (body.raceName.Some? ==> body.raceName.value == raceName) &&
              (body.circuitName.None? <==> circuitName == "") &&
              (body.circuitName.Some? ==> body.circuitName.value == circuitName) &&
              (body.raceDate.None? <==> raceDate == "") &&
              (body.raceDate.Some? ==> body.raceDate.value == raceDate) &&
              (body.raceId.None? <==> !IsTruthyId(selectedRaceId)) &&
              (body.raceId.Some? ==> body.raceId == selectedRaceId)
  {
    if mode == Select && IsTruthyId(selectedRaceId) then
      Send(GetById(selectedRaceId.value))
    else if Trim(raceName) == "" && mode == Manual then
      Reject(ValidationMessage)
    else
      Send(PostSearch(PredictBody(TextOrUndefined(raceName), TextOrUndefined(circuitName),
                                  TextOrUndefined(raceDate), IdOrUndefined(selectedRaceId))))
  }

  /**
   * The Predict button's `disabled` expression: while loading, in select
   * mode without a (truthy) selection, or in manual mode with a blank name.
   */
  function PredictDisabled(loading: bool, mode: SearchMode, selectedRaceId: Option<int>,
                           raceName: string): (disabled: bool)
    ensures disabled <==> loading || (mode == Select && !IsTruthyId(selectedRaceId)) ||
                          (mode == Manual && IsBlank(raceName))
  {
    loading || (mode == Select && !IsTruthyId(selectedRaceId)) || (mode == Manual && Trim(raceName) == "")
  }

  /**
   * The button guards the handler: whenever it is enabled, pressing it sends
   * a request (never the validation error), and in select mode that request
   * is the GET by identifier.
   */
  lemma EnabledButtonSends(mode: SearchMode, selectedRaceId: Option<int>,
                           raceName: string, circuitName: string, raceDate: string)
    requires !PredictDisabled(false, mode, selectedRaceId, raceName)
    ensures ChooseRequest(mode, selectedRaceId, raceName, circuitName, raceDate).Send?
    ensures mode == Select ==>
              ChooseRequest(mode, selectedRaceId, raceName, circuitName, raceDate)
                == Send(GetById(selectedRaceId.value))
    ensures mode == Manual ==>
              ChooseRequest(mode, selectedRaceId, raceName, circuitName, raceDate).request.PostSearch?
  {
  }

  /**
   * A manual search made while a race is still selected carries that race's
   * identifier in its body: switching mode does not clear the selection.
   */
  lemma ManualSearchKeepsSelection(raceName: string, circuitName: string, raceDate: string, id: int)
    requires id != 0 && !IsBlank(raceName)
    ensures ChooseRequest(Manual, Some(id), raceName, circuitName, raceDate).Send?
    ensures ChooseRequest(Manual, Some(id), raceName, circuitName, raceDate).request.PostSearch?
    ensures ChooseRequest(Manual, Some(id), raceName, circuitName, raceDate).request.body.raceId == Some(id)
  {
  }

  /**
   * Identifier 0 counts as no selection, so the button stays disabled in
   * select mode. The picker's placeholder option sends `Number("")`, which
   * is 0, so going back to the placeholder lands here.
   */
  lemma ZeroIdentifierDisablesSelectMode(raceName: string)
    ensures PredictDisabled(false, Select, Some(0), raceName)
  {
  }

  // ---------------------------------------------------------------------
  // The prediction service's answer
  // ---------------------------------------------------------------------

  /** The parts of the service's prediction that the page keeps. */
  datatype Prediction = Prediction(
    raceName: string,
    raceId: int,
    predictedWinner: string,
    predictedWinnerTeam: string,
    confidence: real)

  /**
   * How the request ended:
   *  - `Answered`: a 2xx response whose body parsed as a prediction;
   *  - `NotOk`: a non-2xx response, with the `detail` of its JSON body ("" when
   *    absent; "Failed to get prediction" when the body is not JSON) and its status text;
   *  - `Thrown`: the fetch or the JSON decoding threw; `Some(message)` for an
   *    `Error` instance, `None` for anything else.
   */
  datatype Reply =
    | Answered(prediction: Prediction)
    | NotOk(detail: string, statusText: string)
    | Thrown(message: Option<string>)

  /** The catch-all message for a thrown value that is not an `Error`. */
  const ServerDownMessage: string := "Failed to get prediction. Make sure the FastAPI server is running."

  /**
   * The text the page shows for a failed request. The error box is guarded
   * by the truthiness of this text, so it stays hidden exactly when an
   * `Error` with an empty message was thrown; a non-2xx response always
   * shows it.
   */
  function FailureMessage(reply: Reply): (msg: string)
    requires !reply.Answered?
    ensures msg == "" <==> reply == Thrown(Some(""))
    ensures reply.NotOk? && reply.detail != "" ==> msg == reply.detail
    ensures reply.NotOk? && reply.detail == "" ==> msg == "Error: " + reply.statusText
    ensures reply.Thrown? ==> msg == reply.message.GetOr(ServerDownMessage)
  {
    match reply
    case NotOk(detail, statusText) => if detail != "" then detail else "Error: " + statusText
    case Thrown(message) => message.GetOr(ServerDownMessage)
  }

  // ---------------------------------------------------------------------
  // The page state
  // ---------------------------------------------------------------------

  /** The `useState` variables of the prediction page that the handlers touch. */
  class PredictPage {
    var raceName: string
    var circuitName: string
    var raceDate: string
    var selectedRaceId: Option<int>
    var availableRaces: seq<Race>
    var loading: bool
    var result: Option<Prediction>
    var error: Option<string>
    var searchMode: SearchMode

    /** The initial state: an empty form, no selection, select mode. */
    constructor ()
      ensures raceName == "" && circuitName == "" && raceDate == ""
      ensures selectedRaceId == None && availableRaces == []
      ensures !loading && result == None && error == None && searchMode == Select
    {
      raceName, circuitName, raceDate := "", "", "";
      selectedRaceId, availableRaces := None, [];
      loading, result, error := false, None, None;
      searchMode := Select;
    }

    /** Whether the Predict button is currently disabled. */
    predicate ButtonDisabled()
      reads this
    {
      PredictDisabled(loading, searchMode, selectedRaceId, raceName)
    }

    /**
     * `handleRaceSelect`: the picked identifier becomes the selection; when
     * a race carries it, the first such race fills the form's name, circuit
     * and date, and otherwise the form is left as it was.
     */
    method SelectRace(raceId: int)
      modifies this
      ensures selectedRaceId == Some(raceId)
      ensures match FindRace(availableRaces, raceId)
              case Some(race) =>
                raceName == race.name && circuitName == race.circuit && raceDate == race.date
              case None =>
                raceName == old(raceName) && circuitName == old(circuitName) && raceDate == old(raceDate)
      ensures availableRaces == old(availableRaces) && searchMode == old(searchMode)
      ensures loading == old(loading) && result == old(result) && error == old(error)
    {
      selectedRaceId := Some(raceId);
      var race := FindRace(availableRaces, raceId);
      if race.Some? {
        raceName := race.value.name;
        circuitName := race.value.circuit;
        raceDate := race.value.date;
      }
    }

    /**
     * The synchronous part of `handlePredict`, up to the request: start
     * loading, clear the previous error and result, then either return the
     * request to send (still loading) or record the validation error and
     * stop loading.
     */
    method BeginPredict() returns (d: Decision)
      modifies this
      ensures d == ChooseRequest(old(searchMode), old(selectedRaceId), old(raceName),
                                 old(circuitName), old(raceDate))
      ensures d.Send? ==> loading && error == None && result == None
      ensures d.Reject? ==> !loading && error == Some(ValidationMessage) && result == None
      ensures raceName == old(raceName) && circuitName == old(circuitName) && raceDate == old(raceDate)
      ensures selectedRaceId == old(selectedRaceId) && availableRaces == old(availableRaces)
      ensures searchMode == old(searchMode)
    {
      loading := true;
      error := None;
      result := None;
      d := ChooseRequest(searchMode, selectedRaceId, raceName, circuitName, raceDate);
      if d.Reject? {
        error := Some(d.message);
        loading := false;
        return;
      }
    }

    /**
     * The part of `handlePredict` after the request: keep the prediction or
     * the failure message, and always stop loading (the `finally` block).
     */
    method FinishPredict(reply: Reply)
      modifies this
      ensures !loading
      ensures reply.Answered? ==> result == Some(reply.prediction) && error == old(error)
      ensures !reply.Answered? ==> error == Some(FailureMessage(reply)) && result == old(result)
      ensures raceName == old(raceName) && circuitName == old(circuitName) && raceDate == old(raceDate)
      ensures selectedRaceId == old(selectedRaceId) && availableRaces == old(availableRaces)
      ensures searchMode == old(searchMode)
    {
      if reply.Answered? {
        result := Some(reply.prediction);
      } else {
        error := Some(FailureMessage(reply));
      }
      loading := false;
    }

    /**
     * One whole press of Predict, with `reply` standing for the service's
     * answer: every path ends not loading, with exactly one of a prediction
     * or an error message recorded (an empty message, from a thrown `Error`
     * without text, is not shown). A press of the enabled button never ends
     * in the validation error.
     */
    method Predict(reply: Reply) returns (d: Decision)
      modifies this
      ensures !old(ButtonDisabled()) ==> d.Send?
      ensures !old(ButtonDisabled()) && old(searchMode) == Select ==>
                d == Send(GetById(old(selectedRaceId).value))
      ensures d == ChooseRequest(old(searchMode), old(selectedRaceId), old(raceName),
                                 old(circuitName), old(raceDate))
      ensures !loading
      ensures d.Reject? ==> error == Some(ValidationMessage) && result == None
      ensures d.Send? && reply.Answered? ==> result == Some(reply.prediction) && error == None
      ensures d.Send? && !reply.Answered? ==> error == Some(FailureMessage(reply)) && result == None
      ensures raceName == old(raceName) && circuitName == old(circuitName) && raceDate == old(raceDate)
      ensures selectedRaceId == old(selectedRaceId) && availableRaces == old(availableRaces)
      ensures searchMode == old(searchMode)
    {
      if !ButtonDisabled() {
        EnabledButtonSends(searchMode, selectedRaceId, raceName, circuitName, raceDate);
      }
      d := BeginPredict();
      if d.Send? {
        FinishPredict(reply);
      }
    }
  }
}
