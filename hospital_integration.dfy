/**
 * The hospital-transfer page: it reads the saved treatment log from
 * browser storage, derives the record sent to the hospital, exports that
 * record as CSV and steps a send status through a simulated upload.
 */
module HospitalIntegration {
  import opened Wrappers
  import opened Text
  import opened Json
  import opened MonitoringUtils
  import opened BrowserStorage

  const StorageKey: string := "treatmentLog"

  /** The time of the record: the stored start time, or the moment of export when none is stored. */
  datatype ExportTime = StartedAt(startTime: Json) | ExportedAt(now: int)

  /** The record derived from the saved log; every value is a stored value or the empty text. */
  datatype TransferRecord = TransferRecord(
    time: ExportTime,
    heartRate: Json,
    oxygenLevel: Json,
    systolic: Json,
    diastolic: Json,
    medication: Json,
    notes: Json)

  /** There is something to show: the stored log has truthy vital signs. */
  predicate HasData(stored: Option<Json>)
  {
    Defined(Get(stored, "vitalSigns"))
  }

  /**
   * `bp?.split('/')?.[i] ?? ''`: part `i` of a stored text, the empty text
   * when the value or the part is missing, and a `TypeError` for a value
   * that is neither a text nor `null`.
   */
  function PressurePart(bp: Option<Json>, i: nat): (r: Result<Json, string>)
    ensures r.Ok? <==> bp.None? || bp.value.JNull? || bp.value.JStr?
    ensures r.Ok? ==> r.value.JStr? && '/' !in r.value.s
    ensures bp.None? || bp.value.JNull? ==> r == Ok(JStr(""))
  {
    match bp
    case None => Ok(JStr(""))
    case Some(JNull) => Ok(JStr(""))
    case Some(JStr(s)) =>
      var parts := Split(s, '/');
      Ok(JStr(if i < |parts| then parts[i] else ""))
    case Some(_) => Err("TypeError")
  }

  /** `x ?? ''`. */
  function OrEmpty(x: Option<Json>): Json
  {
    OrDefault(x, JStr(""))
  }

  /**
   * `recordForExport`: `null` (`Ok(None)`) without data; otherwise the
   * record, or the `TypeError` that a blood pressure that is not a text
   * raises.
   */
  function RecordForExport(stored: Option<Json>, now: int): Result<Option<TransferRecord>, string>
  {
    if !HasData(stored) then Ok(None)
    else
      var vitals := Get(stored, "vitalSigns");
      var bp := Get(vitals, "bloodPressure");
      var startTime := Get(stored, "startTime");
      match (PressurePart(bp, 0), PressurePart(bp, 1))
      case (Ok(systolic), Ok(diastolic)) =>
        Ok(Some(TransferRecord(
          if Defined(startTime) then StartedAt(startTime.value) else ExportedAt(now),
          OrEmpty(Get(vitals, "pulse")),
          OrEmpty(Get(vitals, "oxygenLevel")),
          systolic,
          diastolic,
          OrEmpty(Get(stored, "medication")),
          OrEmpty(Get(stored, "notes")))))
      case _ => Err("TypeError")
  }

  /** The record as the CSV exporter reads it: it has no temperature and no respiratory rate. */
  function ExportRecord(r: TransferRecord): CsvRecord<ExportTime>
  {
    CsvRecord(r.time, Some(r.heartRate), Some(r.oxygenLevel), Some(r.systolic), Some(r.diastolic), None, None)
  }

  /** The text of "Export CSV": nothing without a record, else the one-record CSV. */
  function ExportText(stored: Option<Json>, now: int, showTime: ExportTime -> string): Result<Option<string>, string>
  {
    match RecordForExport(stored, now)
    case Err(e) => Err(e)
    case Ok(None) => Ok(None)
    case Ok(Some(r)) => Ok(Some(CsvText([ExportRecord(r)], showTime)))
  }

  /** Without data there is no record and nothing to export. */
  lemma NoDataNoRecord(stored: Option<Json>, now: int, showTime: ExportTime -> string)
    ensures !HasData(stored) <==> RecordForExport(stored, now) == Ok(None)
    ensures !HasData(stored) <==> ExportText(stored, now, showTime) == Ok(None)
    ensures stored.None? || !stored.value.JObj? ==> !HasData(stored)
  {
  }

  /**
   * With data, missing or `null` values become the empty text and present
   * ones pass through unchanged; the time is the stored start time when it
   * is truthy, the export moment otherwise.
   */
  lemma RecordFields(stored: Option<Json>, now: int)
    requires HasData(stored)
    requires RecordForExport(stored, now).Ok?
    ensures var m := stored.value.fields;
            var v := m["vitalSigns"];
            var r := RecordForExport(stored, now).value;
            && r.Some?
            && (r.value.heartRate == if v.JObj? && "pulse" in v.fields && !v.fields["pulse"].JNull?
                                     then v.fields["pulse"] else JStr(""))
            && (r.value.oxygenLevel == if v.JObj? && "oxygenLevel" in v.fields && !v.fields["oxygenLevel"].JNull?
                                       then v.fields["oxygenLevel"] else JStr(""))
            && (r.value.medication == if "medication" in m && !m["medication"].JNull? then m["medication"] else JStr(""))
            && (r.value.notes == if "notes" in m && !m["notes"].JNull? then m["notes"] else JStr(""))
            && (r.value.time == if "startTime" in m && Truthy(m["startTime"]) then StartedAt(m["startTime"]) else ExportedAt(now))
            && (!(v.JObj? && "bloodPressure" in v.fields && !v.fields["bloodPressure"].JNull?) ==>
                  r.value.systolic == JStr("") && r.value.diastolic == JStr(""))
            && (v.JObj? && "bloodPressure" in v.fields && v.fields["bloodPressure"].JStr? ==>
                  var parts := Split(v.fields["bloodPressure"].s, '/');
                  && r.value.systolic == JStr(parts[0])
                  && r.value.diastolic == JStr(if |parts| >= 2 then parts[1] else ""))
  {
  }

  /**
   * A blood pressure stored as `a/b` gives systolic `a` and diastolic `b`;
   * a text without '/' is all systolic with an empty diastolic; with more
   * slashes only the first two pieces are used.
   */
  lemma PressureParts(a: string, b: string, rest: string)
    requires '/' !in a && '/' !in b
    ensures PressurePart(Some(JStr(a + "/" + b)), 0) == Ok(JStr(a))
    ensures PressurePart(Some(JStr(a + "/" + b)), 1) == Ok(JStr(b))
    ensures PressurePart(Some(JStr(a)), 0) == Ok(JStr(a))
    ensures PressurePart(Some(JStr(a)), 1) == Ok(JStr(""))
    ensures PressurePart(Some(JStr(a + "/" + b + "/" + rest)), 0) == Ok(JStr(a))
    ensures PressurePart(Some(JStr(a + "/" + b + "/" + rest)), 1) == Ok(JStr(b))
  {
    assert a + "/" + b == a + ['/'] + b;
    SplitPair(a, '/', b);
    SplitWithoutSeparator(a, '/');
    assert a + "/" + b + "/" + rest == a + ['/'] + (b + ['/'] + rest);
    SplitAtFirstSeparator(a, '/', b + ['/'] + rest);
    SplitAtFirstSeparator(b, '/', rest);
  }

  /** A stored blood pressure that is a number, a boolean, an array or an object makes the record throw. */
  lemma NonTextPressureThrows(stored: Option<Json>, now: int)
    requires HasData(stored)
    requires var bp := Get(Get(stored, "vitalSigns"), "bloodPressure");
             bp.Some? && !bp.value.JNull? && !bp.value.JStr?
    ensures RecordForExport(stored, now).Err?
  {
  }

  /**
   * The exported row never carries medication or notes: two records that
   * differ only there export the same text, and the last two cells are empty.
   */
  lemma ExportIgnoresMedicationAndNotes(r: TransferRecord, medication: Json, notes: Json, showTime: ExportTime -> string)
    ensures var other := r.(medication := medication, notes := notes);
            CsvText([ExportRecord(r)], showTime) == CsvText([ExportRecord(other)], showTime)
    ensures RowCells(ExportRecord(r), showTime)[5] == "" && RowCells(ExportRecord(r), showTime)[6] == ""
  {
  }

  // ---------------------------------------------------------------------
  // sending

  /** `null`, 'sending', 'success' or 'error'. */
  datatype SendStatus = Idle | Sending | Succeeded | Failed

  /** What happens to the status: the send button, the simulated latency ending, the status timer. */
  datatype SendEvent = Press | Settle(rejected: bool) | Expire

  /** The status after an event: the button only acts when there is data. */
  function NextStatus(s: SendStatus, e: SendEvent, hasData: bool): SendStatus
  {
    match e
    case Press => if hasData then Sending else s
    case Settle(rejected) => if rejected then Failed else Succeeded
    case Expire => Idle
  }

  /** The statuses shown one after another as events arrive. */
  function StatusTrace(s: SendStatus, events: seq<SendEvent>, hasData: bool): (trace: seq<SendStatus>)
    ensures |trace| == |events|
    ensures |events| > 0 ==> trace[0] == NextStatus(s, events[0], hasData)
    ensures forall i :: 0 < i < |events| ==> trace[i] == NextStatus(trace[i - 1], events[i], hasData)
    decreases |events|
  {
    if |events| == 0 then []
    else
      var next := NextStatus(s, events[0], hasData);
      [next] + StatusTrace(next, events[1..], hasData)
  }

  /**
   * A send shows 'sending', then 'success' or 'error', then nothing again;
   * without data the button leaves the status alone.
   */
  lemma SendCycle(s: SendStatus, rejected: bool)
    ensures StatusTrace(s, [Press, Settle(rejected), Expire], true) ==
              [Sending, if rejected then Failed else Succeeded, Idle]
    ensures StatusTrace(s, [Press], false) == [s]
  {
    var last := if rejected then Failed else Succeeded;
    assert [Expire][1..] == [];
    assert StatusTrace(last, [Expire], true) == [Idle];
    assert [Settle(rejected), Expire][1..] == [Expire];
    assert StatusTrace(Sending, [Settle(rejected), Expire], true) == [last, Idle];
    assert [Press, Settle(rejected), Expire][1..] == [Settle(rejected), Expire];
    assert [Press][1..] == [];
  }

  /** However often send is pressed, the status is 'sending' with data and unchanged without. */
  lemma {:induction false} PressOnlySends(s: SendStatus, events: seq<SendEvent>, hasData: bool)
    requires forall i :: 0 <= i < |events| ==> events[i] == Press
    ensures forall i :: 0 <= i < |events| ==> StatusTrace(s, events, hasData)[i] == (if hasData then Sending else s)
    decreases |events|
  {
    if |events| > 0 {
      var next := NextStatus(s, Press, hasData);
      assert next == if hasData then Sending else s;
      PressOnlySends(next, events[1..], hasData);
      assert StatusTrace(s, events, hasData) == [next] + StatusTrace(next, events[1..], hasData);
    }
  }

  class TransferPage {
    var storedData: Option<Json>
    var sendStatus: SendStatus

    constructor ()
      ensures storedData.None? && sendStatus == Idle
    {
      storedData := None;
      sendStatus := Idle;
    }

    /**
     * On opening: nothing happens for a missing or empty stored text; a text
     * that parses becomes the stored data, and one that does not leaves it
     * `null`.
     */
    method Load(store: LocalStore, parse: string -> Option<Json>)
      modifies this
      ensures var raw := store.GetItem(StorageKey);
              storedData == if raw.None? || raw.value == "" then old(storedData) else parse(raw.value)
      ensures sendStatus == old(sendStatus)
    {
      var raw := store.GetItem(StorageKey);
      if raw.None? || raw.value == "" {
        return;
      }
      storedData := parse(raw.value);
    }

    /** "Export CSV": the text handed to the download, when there is a record. */
    method Export(now: int, showTime: ExportTime -> string) returns (text: Result<Option<string>, string>)
      ensures text == ExportText(storedData, now, showTime)
      ensures HasData(storedData) && text.Ok? ==> text.value.Some?
    {
      text := ExportText(storedData, now, showTime);
    }

    /** "Send to hospital": 'sending' when there is data, nothing otherwise. */
    method Send()
      modifies this
      ensures sendStatus == NextStatus(old(sendStatus), Press, HasData(storedData))
      ensures storedData == old(storedData)
    {
      if !HasData(storedData) {
        return;
      }
      sendStatus := Sending;
    }

    /** The simulated latency ends; `rejected` stands for the promise failing. */
    method Settle(rejected: bool)
      modifies this
      ensures sendStatus == NextStatus(old(sendStatus), SendEvent.Settle(rejected), HasData(storedData))
      ensures storedData == old(storedData)
    {
      sendStatus := if rejected then Failed else Succeeded;
    }

    /** The status is cleared three seconds after a send settles. */
    method ExpireStatus()
      modifies this
      ensures sendStatus == NextStatus(old(sendStatus), Expire, HasData(storedData))
      ensures storedData == old(storedData)
    {
      sendStatus := Idle;
    }
  }
}
