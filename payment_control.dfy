/**
 * The Chapa payment handlers: the transaction reference, the checkout
 * configuration, creating the unpaid payment, and settling it when the
 * gateway reports back (marking it paid and crediting the doctor).
 *
 * The gateway's HTTP answers, the clock's ISO timestamp and the random hex
 * are inputs; the environment is a map from variable name to value.
 */
module PaymentControl {
  import opened Wrappers
  import opened JsStrings
  import opened Store
  import opened Environment

  /** Both base URLs fall back to the same local address. */
  const LocalUrl := "http://localhost:8080"

  /** `process.env.FRONTEND_URL || 'http://localhost:8080'` */
  function FrontendUrl(env: Env): string {
    VarOr(env, "FRONTEND_URL", LocalUrl)
  }

  /** `process.env.BACKEND_URL || 'http://localhost:8080'` */
  function BackendUrl(env: Env): string {
    VarOr(env, "BACKEND_URL", LocalUrl)
  }

  // ------------------------------------------------------------ generateTxRef

  /** The characters the timestamp loses: `/[-:.TZ]/g`. */
  const Separators: set<char> := {'-', ':', '.', 'T', 'Z'}

  /** `tx-` + the first 14 characters of the stripped timestamp + `-` + the random hex. */
  function GenerateTxRef(isoTimestamp: string, hex: string): (r: string)
    ensures 4 + |hex| <= |r| <= 18 + |hex|
    ensures r[..3] == "tx-" && r[|r| - |hex|..] == hex
  {
    "tx-" + Prefix(RemoveChars(isoTimestamp, Separators), 14) + "-" + hex
  }

  predicate Digits(s: string) {
    forall i :: 0 <= i < |s| ==> '0' <= s[i] <= '9'
  }

  /** `Date.prototype.toISOString()` for a four-digit year: `YYYY-MM-DDTHH:mm:ss.sssZ`. */
  function IsoTimestamp(y: string, mo: string, d: string, h: string, mi: string, s: string, ms: string): string {
    y + "-" + mo + "-" + d + "T" + h + ":" + mi + ":" + s + "." + ms + "Z"
  }

  lemma StripSeparator(x: string, sep: char, digits: string)
    requires sep in Separators && Digits(digits)
    ensures RemoveChars(x + [sep] + digits, Separators) == RemoveChars(x, Separators) + digits
  {
    RemoveCharsAppend(x + [sep], digits, Separators);
    RemoveCharsAppend(x, [sep], Separators);
    DigitsKept(digits);
    SeparatorDropped(sep);
  }

  lemma DigitsKept(digits: string)
    requires Digits(digits)
    ensures RemoveChars(digits, Separators) == digits
  {
    RemoveCharsNone(digits, Separators);
  }

  lemma SeparatorDropped(sep: char)
    requires sep in Separators
    ensures RemoveChars([sep], Separators) == []
  {
    assert [sep][1..] == [];
  }

  /** Stripping the separators of a well-formed timestamp leaves its digits, in order. */
  lemma StrippedIsoTimestamp(y: string, mo: string, d: string, h: string, mi: string, s: string, ms: string)
    requires Digits(y) && Digits(mo) && Digits(d) && Digits(h) && Digits(mi) && Digits(s) && Digits(ms)
    ensures RemoveChars(IsoTimestamp(y, mo, d, h, mi, s, ms), Separators) == y + mo + d + h + mi + s + ms
  {
    var p1 := y + "-" + mo;
    var p2 := p1 + "-" + d;
    var p3 := p2 + "T" + h;
    var p4 := p3 + ":" + mi;
    var p5 := p4 + ":" + s;
    var p6 := p5 + "." + ms;
    DigitsKept(y);
    StripSeparator(y, '-', mo);
    StripSeparator(p1, '-', d);
    StripSeparator(p2, 'T', h);
    StripSeparator(p3, ':', mi);
    StripSeparator(p4, ':', s);
    StripSeparator(p5, '.', ms);
    RemoveCharsAppend(p6, "Z", Separators);
    SeparatorDropped('Z');
  }

  /**
   * For a well-formed timestamp the reference is `tx-YYYYMMDDHHmmss-` + the
   * hex: the milliseconds are cut off, and with 4 random bytes it is 26 characters long.
   */
  lemma TxRefOfIsoTimestamp(y: string, mo: string, d: string, h: string, mi: string, s: string, ms: string, hex: string)
    requires |y| == 4 && |mo| == 2 && |d| == 2 && |h| == 2 && |mi| == 2 && |s| == 2 && |ms| == 3
    requires Digits(y) && Digits(mo) && Digits(d) && Digits(h) && Digits(mi) && Digits(s) && Digits(ms)
    ensures GenerateTxRef(IsoTimestamp(y, mo, d, h, mi, s, ms), hex) == "tx-" + y + mo + d + h + mi + s + "-" + hex
    ensures |hex| == 8 ==> |GenerateTxRef(IsoTimestamp(y, mo, d, h, mi, s, ms), hex)| == 26
  {
    StrippedIsoTimestamp(y, mo, d, h, mi, s, ms);
    var stamp := y + mo + d + h + mi + s;
    assert (stamp + ms)[..14] == stamp;
  }

  // ------------------------------------------------------------ getPaymentConfig

  datatype PaymentConfig = PaymentConfig(
    title: string,
    description: string,
    currency: string,
    returnUrl: string,
    callbackUrl: string)

  /** `getPaymentConfig`: the caller's return URL wins over DEFAULT_RETURN_URL, which wins over the frontend's success page. */
  function GetPaymentConfig(env: Env, returnUrl: Option<string>): (c: PaymentConfig)
    ensures c.currency == "ETB"
    ensures Truthy(returnUrl) ==> c.returnUrl == returnUrl.value
    ensures !Truthy(returnUrl) && IsSet(env, "DEFAULT_RETURN_URL") ==> c.returnUrl == env["DEFAULT_RETURN_URL"]
    ensures !Truthy(returnUrl) && !IsSet(env, "DEFAULT_RETURN_URL") ==> c.returnUrl == FrontendUrl(env) + "/payment-success"
    ensures IsSet(env, "DEFAULT_CALLBACK_URL") ==> c.callbackUrl == env["DEFAULT_CALLBACK_URL"]
    ensures !IsSet(env, "DEFAULT_CALLBACK_URL") ==> c.callbackUrl == BackendUrl(env) + "/api/payment/verify"
  {
    PaymentConfig(
      "Telehealth Pay",
      "Payment for appointment",
      "ETB",
      Or(returnUrl, Or(Var(env, "DEFAULT_RETURN_URL"), Some(FrontendUrl(env) + "/payment-success"))).value,
      Or(Var(env, "DEFAULT_CALLBACK_URL"), Some(BackendUrl(env) + "/api/payment/verify")).value)
  }

  // ------------------------------------------------------------ initializePayment

  /** The body posted to the gateway's `transaction/initialize`; the amount goes as a number, not as its decimal text. */
  datatype ChapaRequest = ChapaRequest(amount: int, currency: string, txRef: string, returnUrl: string,
                                       callbackUrl: string, title: string, description: string)

  /** The gateway's answer to `transaction/initialize`: its body, and the checkout URL when it has one. */
  datatype ChapaInitAnswer = ChapaInitAnswer(data: string, checkoutUrl: Option<string>)

  datatype InitReply =
    | InitFieldsRequired
    | InitFailed
    | Initialized(checkoutUrl: Option<string>, paymentId: Id, txRef: string)

  /** `!amount` for a numeric field: absent or 0. */
  predicate AmountGiven(amount: Option<int>) {
    amount.Some? && amount.value != 0
  }

  predicate FreshPaymentId(payments: seq<Payment>, id: Id) {
    forall i :: 0 <= i < |payments| ==> payments[i].id != id
  }

  /**
   * `initializePayment`: 400 without an appointment or an amount. Otherwise
   * an unpaid Chapa payment in ETB is created before the gateway is asked,
   * so it stays (without an answer) when the gateway call fails.
   */
  method InitializePayment(db: Database, env: Env, appointmentId: Option<Id>, amount: Option<int>, returnUrl: Option<string>,
                           isoTimestamp: string, hex: string, newId: Id, answer: Option<ChapaInitAnswer>)
    returns (r: InitReply, sent: Option<ChapaRequest>)
    requires FreshPaymentId(db.payments, newId)
    modifies db`payments
    ensures r == InitFieldsRequired <==> !Truthy(appointmentId) || !AmountGiven(amount)
    ensures r == InitFieldsRequired ==> db.payments == old(db.payments) && sent == None
    ensures r != InitFieldsRequired ==>
      var tx := GenerateTxRef(isoTimestamp, hex);
      var config := GetPaymentConfig(env, returnUrl);
      var created := Payment(newId, appointmentId.value, amount.value, Unpaid, "chapa", "ETB", tx, None);
      && sent == Some(ChapaRequest(amount.value, "ETB", tx, config.returnUrl, config.callbackUrl, config.title, config.description))
      && (answer.None? ==> r == InitFailed && db.payments == old(db.payments) + [created])
      && (answer.Some? ==> r == Initialized(answer.value.checkoutUrl, newId, tx)
                           && db.payments == old(db.payments) + [created.(chapaResponse := Some(answer.value.data))])
  {
    if !Truthy(appointmentId) || !AmountGiven(amount) {
      return InitFieldsRequired, None;
    }
    var txRef := GenerateTxRef(isoTimestamp, hex);
    var config := GetPaymentConfig(env, returnUrl);
    var payment := Payment(newId, appointmentId.value, amount.value, Unpaid, "chapa", config.currency, txRef, None);
    db.payments := db.payments + [payment];
    sent := Some(ChapaRequest(amount.value, config.currency, txRef, config.returnUrl, config.callbackUrl,
                              config.title, config.description));
    if answer.None? {
      return InitFailed, sent;
    }
    var at := |db.payments| - 1;
    db.payments := db.payments[at := db.payments[at].(chapaResponse := Some(answer.value.data))];
    r := Initialized(answer.value.checkoutUrl, newId, txRef);
  }

  // ------------------------------------------------------------ verifyPayment

  /** Where `verifyPayment` looks for the reference: the query and the body, under both names. */
  datatype TxRefSources = TxRefSources(queryTxRef: Option<string>, bodyTxRef: Option<string>,
                                       queryTrxRef: Option<string>, bodyTrxRef: Option<string>)

  /** `query.tx_ref || body.tx_ref || query.trx_ref || body.trx_ref` */
  function PickTxRef(src: TxRefSources): (r: Option<string>)
    ensures Truthy(src.queryTxRef) ==> r == src.queryTxRef
    ensures !Truthy(src.queryTxRef) && Truthy(src.bodyTxRef) ==> r == src.bodyTxRef
    ensures !Truthy(src.queryTxRef) && !Truthy(src.bodyTxRef) && Truthy(src.queryTrxRef) ==> r == src.queryTrxRef
    ensures !Truthy(src.queryTxRef) && !Truthy(src.bodyTxRef) && !Truthy(src.queryTrxRef) ==> r == src.bodyTrxRef
    ensures Truthy(r) <==> Truthy(src.queryTxRef) || Truthy(src.bodyTxRef) || Truthy(src.queryTrxRef) || Truthy(src.bodyTrxRef)
  {
    Or(src.queryTxRef, Or(src.bodyTxRef, Or(src.queryTrxRef, src.bodyTrxRef)))
  }

  /** `findOne({ tx_ref })`: the first payment with that reference, in natural order. */
  function FirstWithTxRef(payments: seq<Payment>, tx: string): (r: Option<nat>)
    ensures r.Some? ==> r.value < |payments| && payments[r.value].txRef == tx
    ensures r.Some? ==> forall j :: 0 <= j < r.value ==> payments[j].txRef != tx
    ensures r.None? <==> forall j :: 0 <= j < |payments| ==> payments[j].txRef != tx
  {
    if payments == [] then None
    else if payments[0].txRef == tx then Some(0)
    else
      var rest := FirstWithTxRef(payments[1..], tx);
      if rest.Some? then Some(rest.value + 1) else None
  }

  /** The gateway's answer to `transaction/verify`: its body, and `data.status` when present. */
  datatype ChapaVerifyAnswer = ChapaVerifyAnswer(data: string, status: Option<string>)

  /**
   * Where crediting the doctor can stop: not at all, before the payment is
   * read back (so no appointment is known), or when the profile is saved.
   */
  datatype CreditFailure = NoFailure | ReadFails | SaveFails

  datatype VerifyReply = TxRefRequired | VerifyFailed | Redirect(url: string)

  /** The payment-status page the patient is sent back to. */
  function StatusPage(frontend: string, tx: string, appointmentId: Option<Id>, failed: bool): (url: string)
    ensures failed ==> url == frontend + "/patient/payment-status?tx_ref=" + tx + "&status=failed"
    ensures !failed && Truthy(appointmentId) ==> url == frontend + "/patient/payment-status?tx_ref=" + tx + "&appointment_id=" + appointmentId.value
    ensures !failed && !Truthy(appointmentId) ==> url == frontend + "/patient/payment-status?tx_ref=" + tx
  {
    var base := frontend + "/patient/payment-status?tx_ref=" + tx;
    if failed then base + "&status=failed"
    else if Truthy(appointmentId) then base + "&appointment_id=" + appointmentId.value
    else base
  }

  /** `(availableBalance || 0) + (amount || 0)`: an unset balance counts as 0. */
  function Credited(balances: map<Id, int>, doctorId: Id, amount: int): (b: map<Id, int>)
    ensures b.Keys == balances.Keys + {doctorId}
    ensures b[doctorId] == (if doctorId in balances then balances[doctorId] else 0) + amount
    ensures forall d :: d in balances && d != doctorId ==> b[d] == balances[d]
  {
    balances[doctorId := (if doctorId in balances then balances[doctorId] else 0) + amount]
  }

  /**
   * `verifyPayment`: 400 without a reference, 500 when the gateway cannot be
   * asked. On `success` the first payment with the reference becomes paid and
   * its amount is credited to the appointment's doctor; crediting errors are
   * swallowed. Otherwise only the gateway's answer is stored. Either way the
   * patient is redirected.
   */
  method VerifyPayment(db: Database, env: Env, src: TxRefSources, answer: Option<ChapaVerifyAnswer>, failure: CreditFailure)
    returns (r: VerifyReply)
    modifies db`payments, db`balances
    ensures r == TxRefRequired <==> !Truthy(PickTxRef(src))
    ensures r == VerifyFailed <==> Truthy(PickTxRef(src)) && answer.None?
    ensures !r.Redirect? ==> db.payments == old(db.payments) && db.balances == old(db.balances)
    ensures r.Redirect? ==>
      var tx := PickTxRef(src).value;
      var at := FirstWithTxRef(old(db.payments), tx);
      var success := answer.value.status == Some("success");
      // the payment found is the only one touched
      && |db.payments| == |old(db.payments)|
      && (at.None? ==> db.payments == old(db.payments))
      && (at.Some? && success ==> db.payments == old(db.payments)[at.value :=
            old(db.payments)[at.value].(status := Paid, chapaResponse := Some(answer.value.data))])
      && (at.Some? && !success ==> db.payments == old(db.payments)[at.value :=
            old(db.payments)[at.value].(chapaResponse := Some(answer.value.data))])
      // only a success with a payment, its appointment, the doctor's profile and no failure credits the doctor
      && (if success && at.Some? && failure == NoFailure
             && old(db.payments)[at.value].appointmentId in db.appointments
             && db.appointments[old(db.payments)[at.value].appointmentId].doctorId in db.doctorProfiles
          then db.balances == Credited(old(db.balances), db.appointments[old(db.payments)[at.value].appointmentId].doctorId,
                                       old(db.payments)[at.value].amount)
          else db.balances == old(db.balances))
      && r.url == StatusPage(FrontendUrl(env), tx,
                             if success && at.Some? && failure != ReadFails then Some(old(db.payments)[at.value].appointmentId) else None,
                             !success)
  {
    var frontend := FrontendUrl(env);
    var txRef := PickTxRef(src);
    if !Truthy(txRef) {
      return TxRefRequired;
    }
    var tx := txRef.value;
    if answer.None? {
      return VerifyFailed;
    }
    var data := answer.value;
    var appointmentId: Option<Id> := None;
    var at := FirstWithTxRef(db.payments, tx);
    if data.status == Some("success") {
      if at.Some? {
        db.payments := db.payments[at.value := db.payments[at.value].(status := Paid, chapaResponse := Some(data.data))];
      }
      if failure != ReadFails && at.Some? {
        var payment := db.payments[at.value];
        appointmentId := Some(payment.appointmentId);
        if payment.appointmentId in db.appointments {
          var appointment := db.appointments[payment.appointmentId];
          if appointment.doctorId in db.doctorProfiles && failure != SaveFails {
            db.balances := Credited(db.balances, appointment.doctorId, payment.amount);
          }
        }
      }
      return Redirect(StatusPage(frontend, tx, appointmentId, false));
    } else {
      if at.Some? {
        db.payments := db.payments[at.value := db.payments[at.value].(chapaResponse := Some(data.data))];
      }
      return Redirect(StatusPage(frontend, tx, None, true));
    }
  }
}
