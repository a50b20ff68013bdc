/**
 * The alerts REST handler of pages/api/alerts/index.ts: the token guard, the
 * method switch, the POST validation that builds the record handed to the
 * store, and the PUT and DELETE id guards. The handler is a function from the
 * request to the response it writes and the store call it makes; whether that
 * call throws, and what the token verifier returns, are parameters.
 */
module AlertsApi {
  import opened Js

  datatype Request = Request(
    verb: string,
    authorization: Option<string>,
    body: map<string, JsValue>,
    query: map<string, JsValue>)

  /** The record passed to `createAlert`: the body's values, copied as they are. */
  datatype NewAlert = NewAlert(
    userId: string, coinId: JsValue, coinName: JsValue, coinSymbol: JsValue, alertType: JsValue,
    targetPrice: JsValue, percentageChange: JsValue, comparison: JsValue,
    isActive: bool, triggered: bool)

  datatype StoreCall =
    | GetUserAlerts(userId: string)
    | CreateAlert(alert: NewAlert)
    | UpdateAlert(id: JsValue, updates: map<string, JsValue>)
    | DeleteAlert(id: JsValue)

  /** The status and error or message written, and the store call made (successful or not). */
  datatype Response = Response(status: int, message: string, call: Option<StoreCall>)

  datatype Validation = Invalid(error: string) | Valid(alert: NewAlert)

  const MissingFieldsError: string := "Missing required fields"
  const TargetPriceError: string := "Target price is required for price alerts"
  const PercentageError: string := "Percentage change is required for percentage alerts"
  const IdRequiredError: string := "Alert ID is required"

  /** `req.headers.authorization?.replace('Bearer ', '')` */
  function TokenOf(authorization: Option<string>): Option<string>
  {
    if authorization.None? then None else Some(ReplaceFirst(authorization.value, "Bearer ", ""))
  }

  /** The POST guard chain and the record it builds for the user the token names. */
  function BuildAlert(body: map<string, JsValue>, userId: string): Validation
  {
    var coinId, coinName, coinSymbol := Field(body, "coin_id"), Field(body, "coin_name"), Field(body, "coin_symbol");
    var alertType, comparison := Field(body, "alert_type"), Field(body, "comparison");
    var targetPrice, percentageChange := Field(body, "target_price"), Field(body, "percentage_change");
    if !Truthy(coinId) || !Truthy(coinName) || !Truthy(coinSymbol) || !Truthy(alertType) || !Truthy(comparison) then
      Invalid(MissingFieldsError)
    else if alertType == Str("price") && !Truthy(targetPrice) then
      Invalid(TargetPriceError)
    else if alertType == Str("percentage") && !Truthy(percentageChange) then
      Invalid(PercentageError)
    else
      Valid(NewAlert(userId, coinId, coinName, coinSymbol, alertType,
                     if alertType == Str("price") then targetPrice else Null,
                     if alertType == Str("percentage") then percentageChange else Null,
                     comparison, true, false))
  }

  /** The status a store call leads to: its success status, or 500 with the error message when it throws. */
  function Finish(call: StoreCall, storeThrows: bool, success: int, okMessage: string, failMessage: string): Response
  {
    if storeThrows then Response(500, failMessage, Some(call)) else Response(success, okMessage, Some(call))
  }

  /** `handler(req, res)` */
  function Handle(req: Request, verifyToken: string -> Option<string>, storeThrows: bool): Response
  {
    var token := TokenOf(req.authorization);
    if !TruthyString(token) then Response(401, "No token provided", None)
    else match verifyToken(token.value)
      case None => Response(401, "Invalid token", None)
      case Some(userId) =>
        if req.verb == "GET" then
          Finish(GetUserAlerts(userId), storeThrows, 200, "alerts", "Failed to fetch alerts")
        else if req.verb == "POST" then
          match BuildAlert(req.body, userId)
          case Invalid(error) => Response(400, error, None)
          case Valid(alert) => Finish(CreateAlert(alert), storeThrows, 201, "alert", "Failed to create alert")
        else if req.verb == "PUT" then
          var id := Field(req.body, "id");
          if !Truthy(id) then Response(400, IdRequiredError, None)
          else Finish(UpdateAlert(id, req.body - {"id"}), storeThrows, 200, "alert", "Failed to update alert")
        else if req.verb == "DELETE" then
          var id := Field(req.query, "id");
          if !Truthy(id) then Response(400, IdRequiredError, None)
          else Finish(DeleteAlert(id), storeThrows, 200, "Alert deleted successfully", "Failed to delete alert")
        else Response(405, "Method not allowed", None)
  }

  // ---------------------------------------------------------------------------
  // Properties
  // ---------------------------------------------------------------------------

  /** Without a token, or with one the verifier refuses, the answer is 401 and the store is not called. */
  lemma UnauthenticatedIsRefused(req: Request, verifyToken: string -> Option<string>, storeThrows: bool)
    requires !TruthyString(TokenOf(req.authorization)) || verifyToken(TokenOf(req.authorization).value).None?
    ensures Handle(req, verifyToken, storeThrows).status == 401
    ensures Handle(req, verifyToken, storeThrows).call.None?
  {
  }

  /**
   * The token is the header with its first `Bearer ` removed: a header that
   * starts with it loses the prefix, and one that never contains it is handed
   * to the verifier unchanged.
   */
  lemma TokenOfHeader(header: string)
    ensures StartsWith(header, "Bearer ") ==> TokenOf(Some(header)) == Some(header[7..])
    ensures (forall k: nat :: !OccursAt(header, "Bearer ", k)) ==> TokenOf(Some(header)) == Some(header)
  {
    if StartsWith(header, "Bearer ") {
      ReplacePrefix(header, "Bearer ");
    }
    if forall k: nat :: !OccursAt(header, "Bearer ", k) {
      ReplaceAbsent(header, "Bearer ");
    }
  }

  /** With a valid token, any other method is answered 405 without a store call. */
  lemma OtherMethodsNotAllowed(req: Request, verifyToken: string -> Option<string>, storeThrows: bool)
    requires TruthyString(TokenOf(req.authorization)) && verifyToken(TokenOf(req.authorization).value).Some?
    requires req.verb !in {"GET", "POST", "PUT", "DELETE"}
    ensures Handle(req, verifyToken, storeThrows) == Response(405, "Method not allowed", None)
  {
  }

  /** A body missing (falsy) any of the five required fields is refused first. */
  lemma MissingRequiredFields(body: map<string, JsValue>, userId: string)
    requires exists f :: f in ["coin_id", "coin_name", "coin_symbol", "alert_type", "comparison"] && !Truthy(Field(body, f))
    ensures BuildAlert(body, userId) == Invalid(MissingFieldsError)
  {
    var f :| f in ["coin_id", "coin_name", "coin_symbol", "alert_type", "comparison"] && !Truthy(Field(body, f));
    assert f == "coin_id" || f == "coin_name" || f == "coin_symbol" || f == "alert_type" || f == "comparison";
  }

  /** A price alert needs a truthy target price and a percentage alert a truthy percentage: 0 counts as missing. */
  lemma ThresholdRequired(body: map<string, JsValue>, userId: string)
    requires forall f :: f in ["coin_id", "coin_name", "coin_symbol", "alert_type", "comparison"] ==> Truthy(Field(body, f))
    ensures Field(body, "alert_type") == Str("price") && !Truthy(Field(body, "target_price")) ==>
              BuildAlert(body, userId) == Invalid(TargetPriceError)
    ensures Field(body, "alert_type") == Str("percentage") && !Truthy(Field(body, "percentage_change")) ==>
              BuildAlert(body, userId) == Invalid(PercentageError)
    ensures Field(body, "alert_type") == Str("price") && Field(body, "target_price") == Num(0.0) ==>
              BuildAlert(body, userId).Invalid?
  {
    assert Truthy(Field(body, "coin_id")) && Truthy(Field(body, "coin_name")) && Truthy(Field(body, "coin_symbol"));
    assert Truthy(Field(body, "alert_type")) && Truthy(Field(body, "comparison"));
  }

  /**
   * A created alert belongs to the token's user, copies the body's fields,
   * keeps only the threshold matching its kind (the other is null), and starts
   * active and untriggered.
   */
  lemma CreatedAlertShape(body: map<string, JsValue>, userId: string)
    requires BuildAlert(body, userId).Valid?
    ensures var a := BuildAlert(body, userId).alert;
      && a.userId == userId
      && a.coinId == Field(body, "coin_id") && a.coinName == Field(body, "coin_name")
      && a.coinSymbol == Field(body, "coin_symbol") && a.alertType == Field(body, "alert_type")
      && a.comparison == Field(body, "comparison")
      && a.targetPrice == (if a.alertType == Str("price") then Field(body, "target_price") else Null)
      && a.percentageChange == (if a.alertType == Str("percentage") then Field(body, "percentage_change") else Null)
      && a.isActive && !a.triggered
      && Truthy(a.coinId) && Truthy(a.coinName) && Truthy(a.coinSymbol) && Truthy(a.alertType) && Truthy(a.comparison)
  {
  }

  /**
   * Exactly one threshold is set when the kind is `price` or `percentage`;
   * any other kind is stored with neither.
   */
  lemma CreatedAlertThreshold(body: map<string, JsValue>, userId: string)
    requires BuildAlert(body, userId).Valid?
    ensures var a := BuildAlert(body, userId).alert;
      && (a.alertType == Str("price") ==> Truthy(a.targetPrice) && a.percentageChange == Null)
      && (a.alertType == Str("percentage") ==> Truthy(a.percentageChange) && a.targetPrice == Null)
      && (a.alertType != Str("price") && a.alertType != Str("percentage") ==> a.targetPrice == Null && a.percentageChange == Null)
  {
  }

  /**
   * A body is accepted exactly when the five required fields are truthy and
   * the threshold of its kind (if it is `price` or `percentage`) is truthy:
   * the comparison's value, and whether it suits the kind, play no part, and
   * a kind other than the two is accepted.
   */
  lemma BuildAlertAcceptance(body: map<string, JsValue>, userId: string)
    ensures BuildAlert(body, userId).Valid? <==>
              && Truthy(Field(body, "coin_id")) && Truthy(Field(body, "coin_name"))
              && Truthy(Field(body, "coin_symbol")) && Truthy(Field(body, "alert_type"))
              && Truthy(Field(body, "comparison"))
              && (Field(body, "alert_type") == Str("price") ==> Truthy(Field(body, "target_price")))
              && (Field(body, "alert_type") == Str("percentage") ==> Truthy(Field(body, "percentage_change")))
    ensures forall c :: Truthy(c) ==>
              BuildAlert(body["comparison" := c], userId).Valid? == BuildAlert(body["comparison" := Str("above")], userId).Valid?
  {
  }

  /** The comparison is not checked against the kind: a price alert with `increase` is accepted. */
  lemma ComparisonNotCheckedAgainstKind(userId: string)
    ensures var body := map["coin_id" := Str("bitcoin"), "coin_name" := Str("Bitcoin"), "coin_symbol" := Str("btc"),
                            "alert_type" := Str("price"), "comparison" := Str("increase"), "target_price" := Num(50000.0)];
            BuildAlert(body, userId).Valid? && BuildAlert(body, userId).alert.comparison == Str("increase")
  {
  }

  /** An authenticated POST either fails validation with 400 and no store call, or creates exactly the built record. */
  lemma PostCreatesBuiltAlert(req: Request, verifyToken: string -> Option<string>, storeThrows: bool)
    requires TruthyString(TokenOf(req.authorization)) && verifyToken(TokenOf(req.authorization).value).Some?
    requires req.verb == "POST"
    ensures var userId := verifyToken(TokenOf(req.authorization).value).value;
            var r := Handle(req, verifyToken, storeThrows);
            match BuildAlert(req.body, userId)
            case Invalid(e) => r == Response(400, e, None)
            case Valid(a) => r.call == Some(CreateAlert(a)) && r.status == (if storeThrows then 500 else 201)
  {
  }

  /** PUT without an id is 400; otherwise every other body field is the update for that id. */
  lemma PutUpdatesOtherFields(req: Request, verifyToken: string -> Option<string>, storeThrows: bool)
    requires TruthyString(TokenOf(req.authorization)) && verifyToken(TokenOf(req.authorization).value).Some?
    requires req.verb == "PUT"
    ensures var r := Handle(req, verifyToken, storeThrows);
      && (!Truthy(Field(req.body, "id")) ==> r == Response(400, IdRequiredError, None))
      && (Truthy(Field(req.body, "id")) ==>
            && r.call.Some? && r.call.value.UpdateAlert?
            && r.call.value.id == req.body["id"]
            && "id" !in r.call.value.updates
            && (forall k :: k in req.body && k != "id" ==> k in r.call.value.updates && r.call.value.updates[k] == req.body[k])
            && (forall k :: k in r.call.value.updates ==> k in req.body))
  {
  }

  /** DELETE without an id in the query is 400; otherwise that id is deleted. */
  lemma DeleteNeedsId(req: Request, verifyToken: string -> Option<string>, storeThrows: bool)
    requires TruthyString(TokenOf(req.authorization)) && verifyToken(TokenOf(req.authorization).value).Some?
    requires req.verb == "DELETE"
    ensures var r := Handle(req, verifyToken, storeThrows);
      && (!Truthy(Field(req.query, "id")) ==> r == Response(400, IdRequiredError, None))
      && (Truthy(Field(req.query, "id")) ==> r.call == Some(DeleteAlert(req.query["id"])))
  {
  }
}
