/**
 * How the pieces meet: a treatment log saved by one page is what the
 * hospital-transfer page exports, a token issued at registration is one
 * the guard admits, and the treatment form's highlights are compared with
 * the monitoring banner's alert rules.
 */
module Flows {
  import opened Wrappers
  import opened Text
  import opened Json
  import opened BrowserStorage
  import opened UserModel
  import opened PatientMonitoring
  import opened TreatmentLogs
  import opened HospitalIntegration
  import opened AuthController
  import opened RequireAuth

  // ---------------------------------------------------------------------
  // treatment log to hospital record

  /**
   * The log saved with a reading of pulse `p`, oxygen `o` and pressure
   * `s/d` has data, and the transfer record carries those readings: the
   * numbers as saved and the pressure split back into its two texts.
   */
  lemma SavedLogTransfers(data: map<string, Json>, p: int, o: int, s: nat, d: nat, now: int)
    ensures var v := VitalSigns(Value(p), Value(o), PressureText(s, d));
            var stored := Some(JObj(Payload(data, v)));
            && HasData(stored)
            && RecordForExport(stored, now).Ok?
            && RecordForExport(stored, now).value.Some?
            && var r := RecordForExport(stored, now).value.value;
            && r.heartRate == JNum(p * 10)
            && r.oxygenLevel == JNum(o * 10)
            && r.systolic == JStr(NatToString(s))
            && r.diastolic == JStr(NatToString(d))
  {
    var v := VitalSigns(Value(p), Value(o), PressureText(s, d));
    PayloadFields(data, v);
    var a := NatToString(s);
    var b := NatToString(d);
    DigitsHaveNoSpecials(a);
    DigitsHaveNoSpecials(b);
    assert PressureText(s, d) == a + "/" + b;
    PressureParts(a, b, "");
  }

  /**
   * Saving the treatment log and then opening the transfer page shows the
   * saved object, given a parser that reads back what was written.
   */
  method SaveThenOpenTransfer(log: TreatmentLog, store: LocalStore, page: TransferPage,
                              stringify: Json -> string, parse: string -> Option<Json>, savedAt: string)
    requires var text := stringify(JObj(Payload(log.data, log.vitalSigns)));
             text != "" && parse(text) == Some(JObj(Payload(log.data, log.vitalSigns)))
    modifies log, store, page
    ensures page.storedData == Some(JObj(Payload(old(log.data), old(log.vitalSigns))))
    ensures HasData(page.storedData)
  {
    var payload := log.Submit(store, stringify, true, savedAt);
    page.Load(store, parse);
    PayloadFields(old(log.data), old(log.vitalSigns));
  }

  // ---------------------------------------------------------------------
  // registration to the guard

  /** The payload a token signed over these claims verifies to. */
  function ClaimsJson(c: Claims): Json
  {
    JObj(map["userId" := JStr(c.userId), "role" := JStr(RoleName(c.role))])
  }

  /**
   * The token returned by a successful registration, sent back as
   * "Bearer <token>", is admitted with the new user's id and role, given a
   * token format without spaces and a `verify` that accepts what `sign`
   * produced with the same secret.
   */
  lemma RegisteredTokenAdmitted(users: map<string, StoredUser>, body: Json, newId: string, secret: string,
                                hasher: Hasher, sign: (Claims, string, SignOptions) -> string,
                                verify: (string, string) -> Option<Json>)
    requires secret != ""
    requires RegisterStep(users, body, newId, Some(secret), hasher, sign).reply.Success?
    requires forall c: Claims :: ' ' !in sign(c, secret, TokenOptions)
    requires forall c: Claims :: verify(sign(c, secret, TokenOptions), secret) == Some(ClaimsJson(c))
    ensures var t := RegisterStep(users, body, newId, Some(secret), hasher, sign).reply.accessToken;
            var role := ValidateRegister(body).value.role.GetOr(DefaultRole);
            Guard(map["authorization" := BearerPrefix + t], Some(secret), verify)
              == Admitted(AuthUser(Some(JStr(newId)), Some(JStr(RoleName(role)))))
  {
    var v := ValidateRegister(body).value;
    RegisterSuccessToken(users, body, newId, secret, hasher, sign);
    var c := Claims(newId, v.role.GetOr(DefaultRole));
    var t := sign(c, secret, TokenOptions);
    assert ' ' !in t && verify(t, secret) == Some(ClaimsJson(c));
    BearerHeaderAdmitted(t, secret, verify);
  }

  // ---------------------------------------------------------------------
  // treatment highlights and the monitoring banner

  /**
   * With readings in whole units and the banner's in tenths, the pulse and
   * oxygen highlights agree with the banner except that a zero reading is
   * never highlighted; a highlighted pressure is one the banner flags too.
   */
  lemma HighlightsAgainstBanner(p: int, o: int, s: nat, d: nat)
    ensures var v := VitalSigns(Value(p), Value(o), PressureText(s, d));
            && (PulseHighlighted(v) <==> p != 0 && HeartRateAbnormal(p * 10))
            && (OxygenHighlighted(v) <==> o != 0 && OxygenLow(o * 10))
            && (PressureHighlighted(v.bloodPressure) ==> BloodPressureAbnormal(s * 10, d * 10))
  {
    PressureHighlightOfReading(s, d);
  }

  /** The converse fails: 130/85 raises the banner (diastolic above 80) but is not highlighted. */
  lemma BannerWithoutHighlight()
    ensures BloodPressureAbnormal(1300, 850)
    ensures !PressureHighlighted(PressureText(130, 85))
  {
    PressureHighlightOfReading(130, 85);
  }
}
