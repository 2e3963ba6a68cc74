/**
 * The patient-monitoring screen: every five seconds a reading of six vital
 * signs is appended to per-signal histories capped at 120 values, the live
 * alert banner is recomputed from that reading alone, and an alert sound is
 * played when the banner's last message is new. The table view and the CSV
 * export derive one record per index from the histories.
 */
module PatientMonitoring {
  import opened Wrappers
  import opened Text
  import opened Json
  import opened MonitoringUtils

  /** One reading; each signal in tenths of its unit (72 BPM is 720, 36.6 degrees is 366). */
  datatype Sample = Sample(
    heartRate: int,
    oxygenLevel: int,
    systolic: int,
    diastolic: int,
    temperature: int,
    respiratoryRate: int)

  /** The six histories, oldest value first. */
  datatype Vitals = Vitals(
    heartRate: seq<int>,
    oxygenLevel: seq<int>,
    systolic: seq<int>,
    diastolic: seq<int>,
    temperature: seq<int>,
    respiratoryRate: seq<int>)

  const EmptyVitals: Vitals := Vitals([], [], [], [], [], [])

  /** The most values a history keeps. */
  const Capacity: nat := 120

  /** The sampling period, which is also the spacing of table timestamps, in milliseconds. */
  const TickMs: int := 5000

  function Min(a: int, b: int): int { if a <= b then a else b }

  function Max(a: int, b: int): int { if a >= b then a else b }

  // ---------------------------------------------------------------------
  // the rolling window

  /** `a.slice(-k)` for a positive `k`: the last `k` values, or all of them when there are fewer. */
  function SliceLast(a: seq<int>, k: nat): seq<int>
    requires k > 0
  {
    if |a| > k then a[|a| - k..] else a
  }

  /** `[...prev.slice(-119), x]`: a history after one more value. */
  function Push(prev: seq<int>, x: int): seq<int>
  {
    SliceLast(prev, Capacity - 1) + [x]
  }

  /**
   * After a push the history is at most 120 long, ends with the new value,
   * and before it keeps the newest min(n, 119) earlier values in order.
   */
  lemma PushShape(prev: seq<int>, x: int)
    ensures var next := Push(prev, x);
      && |next| == Min(|prev| + 1, Capacity)
      && next[|next| - 1] == x
      && next[..|next| - 1] == prev[|prev| - Min(|prev|, Capacity - 1)..]
  {
    var next := Push(prev, x);
    assert next[..|next| - 1] == SliceLast(prev, Capacity - 1);
  }

  /** A full history drops exactly its oldest value and stays 120 long. */
  lemma PushOnFull(prev: seq<int>, x: int)
    requires |prev| == Capacity
    ensures Push(prev, x) == prev[1..] + [x]
    ensures |Push(prev, x)| == Capacity
  {}

  /** The history left by pushing the values `xs`, one per tick, onto an empty one. */
  function HistoryOf(xs: seq<int>): seq<int>
  {
    if |xs| == 0 then [] else Push(HistoryOf(xs[..|xs| - 1]), xs[|xs| - 1])
  }

  /**
   * Whatever the number of ticks, a history holds exactly the newest
   * min(n, 120) values produced, in the order they were produced: the first
   * value is gone once the 121st arrives.
   */
  lemma {:induction false} HistoryKeepsNewest(xs: seq<int>)
    ensures HistoryOf(xs) == xs[|xs| - Min(|xs|, Capacity)..]
  {
    if |xs| > 0 {
      var n := |xs|;
      var init := xs[..n - 1];
      HistoryKeepsNewest(init);
      var h := HistoryOf(init);
      var kept := init[n - 1 - Min(n - 1, Capacity - 1)..];
      if n - 1 >= Capacity {
        assert h == init[n - 1 - Capacity..];
        assert SliceLast(h, Capacity - 1) == h[1..] == kept;
      } else {
        assert h == init;
        assert SliceLast(h, Capacity - 1) == kept;
      }
      var k := n - Min(n, Capacity);
      assert k == n - 1 - Min(n - 1, Capacity - 1);
      assert kept == xs[k..n - 1];
      assert xs[k..] == xs[k..n - 1] + [xs[n - 1]];
    }
  }

  /** `setVitals(prev => ...)`: every history takes its value of the new reading. */
  function Append(v: Vitals, s: Sample): Vitals
  {
    Vitals(
      Push(v.heartRate, s.heartRate),
      Push(v.oxygenLevel, s.oxygenLevel),
      Push(v.systolic, s.systolic),
      Push(v.diastolic, s.diastolic),
      Push(v.temperature, s.temperature),
      Push(v.respiratoryRate, s.respiratoryRate))
  }

  /** No history is longer than the window. */
  predicate Bounded(v: Vitals)
  {
    && |v.heartRate| <= Capacity && |v.oxygenLevel| <= Capacity && |v.systolic| <= Capacity
    && |v.diastolic| <= Capacity && |v.temperature| <= Capacity && |v.respiratoryRate| <= Capacity
  }

  /** All six histories have the same length. */
  predicate Aligned(v: Vitals)
  {
    var n := |v.heartRate|;
    |v.oxygenLevel| == n && |v.systolic| == n && |v.diastolic| == n && |v.temperature| == n && |v.respiratoryRate| == n
  }

  /** A tick keeps the histories aligned and within the window; aligned histories grow together. */
  lemma AppendKeepsShape(v: Vitals, s: Sample)
    requires Aligned(v)
    ensures Aligned(Append(v, s)) && Bounded(Append(v, s))
    ensures |Append(v, s).heartRate| == Min(|v.heartRate| + 1, Capacity)
  {}

  // ---------------------------------------------------------------------
  // the live alert banner

  predicate HeartRateAbnormal(hr: int) { !AlertThresholds.heartRate.Contains(hr) }

  /** Only the lower bound of the oxygen range is checked. */
  predicate OxygenLow(ox: int) { ox < AlertThresholds.oxygenLevel.min }

  predicate BloodPressureAbnormal(sys: int, dia: int)
  {
    !AlertThresholds.systolic.Contains(sys) || !AlertThresholds.diastolic.Contains(dia)
  }

  /** "Alert: pulse out of range (<hr> BPM)". */
  function HeartRateMessage(hr: int): string
  {
    "התראה: דופק חורג (" + TenthsToString(hr) + " BPM)"
  }

  /** "Alert: low oxygen level (<ox>%)". */
  function OxygenMessage(ox: int): string
  {
    "התראה: רמת חמצן נמוכה (" + TenthsToString(ox) + "%)"
  }

  /** "Alert: blood pressure out of range (<sys>/<dia>)". */
  function BloodPressureMessage(sys: int, dia: int): string
  {
    "התראה: לחץ דם חורג (" + TenthsToString(sys) + "/" + TenthsToString(dia) + ")"
  }

  /** The three messages are told apart by their eighth character. */
  lemma MessagesDiffer(hr: int, ox: int, sys: int, dia: int)
    ensures HeartRateMessage(hr) != OxygenMessage(ox)
    ensures HeartRateMessage(hr) != BloodPressureMessage(sys, dia)
    ensures OxygenMessage(ox) != BloodPressureMessage(sys, dia)
  {
    assert HeartRateMessage(hr)[7] == 'ד';
    assert OxygenMessage(ox)[7] == 'ר';
    assert BloodPressureMessage(sys, dia)[7] == 'ל';
  }

  /**
   * The list the three checks build, in check order, from which checks
   * fired and the message each one contributes; distinct messages make each
   * one present exactly when its check fired.
   */
  function Banner(hr: bool, ox: bool, bp: bool, hrMsg: string, oxMsg: string, bpMsg: string): (msgs: seq<string>)
    requires hrMsg != oxMsg && hrMsg != bpMsg && oxMsg != bpMsg
    ensures |msgs| == (if hr then 1 else 0) + (if ox then 1 else 0) + (if bp then 1 else 0)
    ensures hrMsg in msgs <==> hr
    ensures oxMsg in msgs <==> ox
    ensures bpMsg in msgs <==> bp
    ensures forall i :: 0 <= i < |msgs| ==> msgs[i] == hrMsg || msgs[i] == oxMsg || msgs[i] == bpMsg
    ensures hr ==> msgs[0] == hrMsg
    ensures bp ==> msgs[|msgs| - 1] == bpMsg
    ensures msgs == [] <==> !hr && !ox && !bp
  {
    (if hr then [hrMsg] else []) + (if ox then [oxMsg] else []) + (if bp then [bpMsg] else [])
  }

  /** The banner for one reading. */
  function AlertMessages(s: Sample): seq<string>
  {
    MessagesDiffer(s.heartRate, s.oxygenLevel, s.systolic, s.diastolic);
    Banner(HeartRateAbnormal(s.heartRate), OxygenLow(s.oxygenLevel), BloodPressureAbnormal(s.systolic, s.diastolic),
      HeartRateMessage(s.heartRate), OxygenMessage(s.oxygenLevel), BloodPressureMessage(s.systolic, s.diastolic))
  }

  /**
   * The banner lists heart rate, then oxygen, then blood pressure, each
   * present exactly when its rule fires, and nothing else; temperature and
   * respiratory rate are not evaluated.
   */
  lemma AlertRules(s: Sample)
    ensures var msgs := AlertMessages(s);
      && |msgs| == (if HeartRateAbnormal(s.heartRate) then 1 else 0) + (if OxygenLow(s.oxygenLevel) then 1 else 0)
                    + (if BloodPressureAbnormal(s.systolic, s.diastolic) then 1 else 0)
      && (HeartRateMessage(s.heartRate) in msgs <==> HeartRateAbnormal(s.heartRate))
      && (OxygenMessage(s.oxygenLevel) in msgs <==> OxygenLow(s.oxygenLevel))
      && (BloodPressureMessage(s.systolic, s.diastolic) in msgs <==> BloodPressureAbnormal(s.systolic, s.diastolic))
      && (forall i :: 0 <= i < |msgs| ==>
            msgs[i] == HeartRateMessage(s.heartRate) || msgs[i] == OxygenMessage(s.oxygenLevel)
            || msgs[i] == BloodPressureMessage(s.systolic, s.diastolic))
      && (HeartRateAbnormal(s.heartRate) ==> msgs[0] == HeartRateMessage(s.heartRate))
      && (BloodPressureAbnormal(s.systolic, s.diastolic) ==> msgs[|msgs| - 1] == BloodPressureMessage(s.systolic, s.diastolic))
      && (msgs == [] <==> !HeartRateAbnormal(s.heartRate) && !OxygenLow(s.oxygenLevel) && !BloodPressureAbnormal(s.systolic, s.diastolic))
  {
    MessagesDiffer(s.heartRate, s.oxygenLevel, s.systolic, s.diastolic);
  }

  /** Temperature and respiratory rate never change the banner. */
  lemma BannerIgnoresTemperatureAndRespiration(s: Sample, temperature: int, respiratoryRate: int)
    ensures AlertMessages(s.(temperature := temperature, respiratoryRate := respiratoryRate)) == AlertMessages(s)
  {}

  /** A pulse of 120 with normal oxygen and pressure raises exactly the heart-rate alert. */
  lemma HighPulseExample(temperature: int, respiratoryRate: int)
    ensures AlertMessages(Sample(1200, 980, 1150, 750, temperature, respiratoryRate)) == [HeartRateMessage(1200)]
  {}

  /** Oxygen at 90% with a normal pulse and pressure raises exactly the oxygen alert. */
  lemma LowOxygenExample(temperature: int, respiratoryRate: int)
    ensures AlertMessages(Sample(750, 900, 1150, 750, temperature, respiratoryRate)) == [OxygenMessage(900)]
  {}

  /** The list `checkAlerts` builds for one reading: the three checks in order, each adding its message when it fires. */
  method CollectAlerts(sample: Sample) returns (newAlerts: seq<string>)
    ensures newAlerts == AlertMessages(sample)
  {
    var t := AlertThresholds;
    var hrText := HeartRateMessage(sample.heartRate);
    var oxText := OxygenMessage(sample.oxygenLevel);
    var bpText := BloodPressureMessage(sample.systolic, sample.diastolic);
    newAlerts := [];
    if sample.heartRate < t.heartRate.min || sample.heartRate > t.heartRate.max {
      newAlerts := newAlerts + [hrText];
    }
    assert newAlerts == if HeartRateAbnormal(sample.heartRate) then [hrText] else [];
    if sample.oxygenLevel < t.oxygenLevel.min {
      newAlerts := newAlerts + [oxText];
    }
    ghost var afterOxygen := newAlerts;
    assert afterOxygen == (if HeartRateAbnormal(sample.heartRate) then [hrText] else [])
                          + (if OxygenLow(sample.oxygenLevel) then [oxText] else []);
    if sample.systolic < t.systolic.min || sample.systolic > t.systolic.max
      || sample.diastolic < t.diastolic.min || sample.diastolic > t.diastolic.max
    {
      newAlerts := newAlerts + [bpText];
    }
    assert newAlerts == afterOxygen + (if BloodPressureAbnormal(sample.systolic, sample.diastolic) then [bpText] else []);
  }

  /** The message that the alert memory may hold: the last one of the banner of `s`. */
  predicate IsBannerTail(m: string, s: Sample)
  {
    AlertMessages(s) != [] && m == AlertMessages(s)[|AlertMessages(s)| - 1]
  }

  // ---------------------------------------------------------------------
  // the monitoring session

  /** The state the screen keeps across ticks. */
  class Session {
    var vitals: Vitals
    var alerts: seq<string>
    /** The last banner message that played the sound. */
    var lastAlert: string
    /** How many times the alert sound was played. */
    var soundsPlayed: nat
    var lastUpdateTime: int
    const startTime: int
    /** The reading whose banner set the alert memory. */
    ghost var alertSource: Sample

    ghost predicate Valid()
      reads this
    {
      && Bounded(vitals)
      && Aligned(vitals)
      && (lastAlert == "" || IsBannerTail(lastAlert, alertSource))
    }

    /** The screen opens with empty histories, no alerts and an empty alert memory. */
    constructor (startTime: int, now: int)
      ensures Valid()
      ensures this.startTime == startTime && lastUpdateTime == now
      ensures vitals == EmptyVitals && alerts == [] && lastAlert == "" && soundsPlayed == 0
    {
      this.startTime := startTime;
      vitals := EmptyVitals;
      alerts := [];
      lastAlert := "";
      soundsPlayed := 0;
      lastUpdateTime := now;
      alertSource := Sample(0, 0, 0, 0, 0, 0);
    }

    /** `setVitals`: every history slides to take the reading's value. */
    method SlideWindow(sample: Sample)
      requires Valid()
      modifies this
      ensures Valid()
      ensures vitals == Append(old(vitals), sample)
      ensures alerts == old(alerts) && lastAlert == old(lastAlert) && soundsPlayed == old(soundsPlayed)
      ensures lastUpdateTime == old(lastUpdateTime)
    {
      AppendKeepsShape(vitals, sample);
      vitals := Vitals(
        Push(vitals.heartRate, sample.heartRate),
        Push(vitals.oxygenLevel, sample.oxygenLevel),
        Push(vitals.systolic, sample.systolic),
        Push(vitals.diastolic, sample.diastolic),
        Push(vitals.temperature, sample.temperature),
        Push(vitals.respiratoryRate, sample.respiratoryRate));
    }

    /**
     * `checkAlerts`: the banner is replaced by the reading's alerts, and the
     * sound plays (and the memory changes) only when the banner is non-empty
     * and its last message differs from the one remembered.
     */
    method CheckAlerts(sample: Sample)
      requires Valid()
      modifies this
      ensures Valid()
      ensures alerts == AlertMessages(sample)
      ensures if alerts != [] && alerts[|alerts| - 1] != old(lastAlert)
              then lastAlert == alerts[|alerts| - 1] && soundsPlayed == old(soundsPlayed) + 1
              else lastAlert == old(lastAlert) && soundsPlayed == old(soundsPlayed)
      ensures lastAlert != old(lastAlert) ==> alertSource == sample
      ensures vitals == old(vitals) && lastUpdateTime == old(lastUpdateTime)
    {
      var newAlerts := CollectAlerts(sample);
      if |newAlerts| > 0 {
        var last := newAlerts[|newAlerts| - 1];
        if last != lastAlert {
          lastAlert := last;
          alertSource := sample;
          soundsPlayed := soundsPlayed + 1;
        }
      }
      alerts := newAlerts;
    }

    /** One tick with the reading `sample` at clock time `now`. */
    method Tick(sample: Sample, now: int)
      requires Valid()
      modifies this
      ensures Valid()
      ensures vitals == Append(old(vitals), sample)
      ensures alerts == AlertMessages(sample)
      ensures if alerts != [] && alerts[|alerts| - 1] != old(lastAlert)
              then lastAlert == alerts[|alerts| - 1] && soundsPlayed == old(soundsPlayed) + 1
              else lastAlert == old(lastAlert) && soundsPlayed == old(soundsPlayed)
      ensures lastUpdateTime == now
    {
      SlideWindow(sample);
      CheckAlerts(sample);
      lastUpdateTime := now;
    }
  }

  /**
   * The alert memory is empty or the last message of the banner of the
   * reading that set it: the blood-pressure message when that reading's
   * pressure was abnormal, else the oxygen message when its oxygen was low,
   * else the heart-rate message of an abnormal pulse.
   */
  lemma MemoryIsLastAlert(session: Session)
    requires session.Valid()
    ensures var a := session.alertSource;
      session.lastAlert != "" ==>
        && (BloodPressureAbnormal(a.systolic, a.diastolic) ==>
              session.lastAlert == BloodPressureMessage(a.systolic, a.diastolic))
        && (!BloodPressureAbnormal(a.systolic, a.diastolic) && OxygenLow(a.oxygenLevel) ==>
              session.lastAlert == OxygenMessage(a.oxygenLevel))
        && (!BloodPressureAbnormal(a.systolic, a.diastolic) && !OxygenLow(a.oxygenLevel) ==>
              HeartRateAbnormal(a.heartRate) && session.lastAlert == HeartRateMessage(a.heartRate))
  {
    AlertRules(session.alertSource);
  }

  /** The sound does not repeat while the same condition persists: a second identical reading is silent. */
  method RepeatedReadingIsSilent(session: Session, sample: Sample, now: int, later: int)
    requires session.Valid()
    modifies session
    ensures session.Valid()
    ensures session.soundsPlayed <= old(session.soundsPlayed) + 1
  {
    session.Tick(sample, now);
    var afterFirst := session.soundsPlayed;
    session.Tick(sample, later);
    assert session.soundsPlayed == afterFirst;
  }

  // ---------------------------------------------------------------------
  // table records

  /** One row of the table and of the export; `None` is `null`. */
  datatype TableRecord = TableRecord(
    time: int,
    heartRate: Option<int>,
    oxygenLevel: Option<int>,
    systolic: Option<int>,
    diastolic: Option<int>,
    temperature: Option<int>,
    respiratoryRate: Option<int>,
    heartRateAlert: bool,
    oxygenAlert: bool,
    bpAlert: bool,
    tempAlert: bool,
    respiratoryAlert: bool)

  /** `h[i] ?? null`. */
  function At(h: seq<int>, i: nat): Option<int>
  {
    if i < |h| then Some(h[i]) else None
  }

  /** The number of rows: the longest of the heart-rate, oxygen and systolic histories. */
  function TableLength(v: Vitals): (n: nat)
    ensures n >= |v.heartRate| && n >= |v.oxygenLevel| && n >= |v.systolic|
    ensures n == |v.heartRate| || n == |v.oxygenLevel| || n == |v.systolic|
  {
    Max(|v.heartRate|, Max(|v.oxygenLevel|, |v.systolic|))
  }

  predicate OutsideRange(x: Option<int>, r: Range)
  {
    x.Some? && !r.Contains(x.value)
  }

  /** Row `i`: its timestamp, the values at index `i` (or null), and a flag per signal. */
  function RecordAt(v: Vitals, startTime: int, i: nat): TableRecord
  {
    var hr := At(v.heartRate, i);
    var ox := At(v.oxygenLevel, i);
    var sys := At(v.systolic, i);
    var dia := At(v.diastolic, i);
    var temp := At(v.temperature, i);
    var resp := At(v.respiratoryRate, i);
    TableRecord(
      startTime + i * TickMs, hr, ox, sys, dia, temp, resp,
      hr.Some? && HeartRateAbnormal(hr.value),
      ox.Some? && OxygenLow(ox.value),
      sys.Some? && dia.Some? && BloodPressureAbnormal(sys.value, dia.value),
      OutsideRange(temp, AlertThresholds.temperature),
      OutsideRange(resp, AlertThresholds.respiratoryRate))
  }

  /** The body of `toTableRecords`' loop: row `i`, each flag computed from the row's own values. */
  method BuildRecord(v: Vitals, startTime: int, i: nat) returns (rec: TableRecord)
    ensures rec == RecordAt(v, startTime, i)
  {
    var t := AlertThresholds;
    var hr := At(v.heartRate, i);
    var ox := At(v.oxygenLevel, i);
    var sys := At(v.systolic, i);
    var dia := At(v.diastolic, i);
    var temp := At(v.temperature, i);
    var resp := At(v.respiratoryRate, i);
    var heartRateAlert := hr != None && (hr.value < t.heartRate.min || hr.value > t.heartRate.max);
    assert heartRateAlert == (hr.Some? && HeartRateAbnormal(hr.value));
    var oxygenAlert := ox != None && ox.value < t.oxygenLevel.min;
    assert oxygenAlert == (ox.Some? && OxygenLow(ox.value));
    var bpAlert := (sys != None && dia != None)
      && (sys.value < t.systolic.min || sys.value > t.systolic.max || dia.value < t.diastolic.min || dia.value > t.diastolic.max);
    assert bpAlert == (sys.Some? && dia.Some? && BloodPressureAbnormal(sys.value, dia.value));
    var tempAlert := temp != None && (temp.value < t.temperature.min || temp.value > t.temperature.max);
    assert tempAlert == OutsideRange(temp, AlertThresholds.temperature);
    var respiratoryAlert := resp != None && (resp.value < t.respiratoryRate.min || resp.value > t.respiratoryRate.max);
    assert respiratoryAlert == OutsideRange(resp, AlertThresholds.respiratoryRate);
    rec := TableRecord(startTime + i * 5000, hr, ox, sys, dia, temp, resp,
      heartRateAlert, oxygenAlert, bpAlert, tempAlert, respiratoryAlert);
  }

  /** `toTableRecords`: one record per index up to the longest of three histories, built in a loop. */
  method ToTableRecords(v: Vitals, startTime: int) returns (records: seq<TableRecord>)
    ensures |records| == TableLength(v)
    ensures forall i :: 0 <= i < |records| ==> records[i] == RecordAt(v, startTime, i)
  {
    var length := Max(|v.heartRate|, Max(|v.oxygenLevel|, |v.systolic|));
    records := [];
    var i := 0;
    while i < length
      invariant 0 <= i <= length
      invariant |records| == i
      invariant forall k :: 0 <= k < i ==> records[k] == RecordAt(v, startTime, k)
    {
      var rec := BuildRecord(v, startTime, i);
      records := records + [rec];
      i := i + 1;
    }
  }

  /**
   * Row `i` carries the values at index `i`, null where a history is
   * shorter, at start + i * 5000 ms; a flag is never raised for a null value,
   * and the pressure flag needs both pressures present.
   */
  lemma RecordAtFields(v: Vitals, startTime: int, i: nat)
    ensures var r := RecordAt(v, startTime, i);
      && r.time == startTime + i * TickMs
      && (r.heartRate.None? <==> i >= |v.heartRate|) && (r.heartRate.Some? ==> r.heartRate.value == v.heartRate[i])
      && (r.oxygenLevel.None? <==> i >= |v.oxygenLevel|) && (r.oxygenLevel.Some? ==> r.oxygenLevel.value == v.oxygenLevel[i])
      && (r.systolic.None? <==> i >= |v.systolic|) && (r.systolic.Some? ==> r.systolic.value == v.systolic[i])
      && (r.diastolic.None? <==> i >= |v.diastolic|) && (r.diastolic.Some? ==> r.diastolic.value == v.diastolic[i])
      && (r.temperature.None? <==> i >= |v.temperature|) && (r.temperature.Some? ==> r.temperature.value == v.temperature[i])
      && (r.respiratoryRate.None? <==> i >= |v.respiratoryRate|)
      && (r.respiratoryRate.Some? ==> r.respiratoryRate.value == v.respiratoryRate[i])
      && (r.heartRate.None? ==> !r.heartRateAlert)
      && (r.oxygenLevel.None? ==> !r.oxygenAlert)
      && (r.systolic.None? || r.diastolic.None? ==> !r.bpAlert)
      && (r.temperature.None? ==> !r.tempAlert)
      && (r.respiratoryRate.None? ==> !r.respiratoryAlert)
  {}

  /** Histories kept by a session are aligned, so no row of its table has a null value. */
  lemma AlignedTableHasNoNulls(v: Vitals, startTime: int, i: nat)
    requires Aligned(v) && i < TableLength(v)
    ensures var r := RecordAt(v, startTime, i);
      && r.heartRate.Some? && r.oxygenLevel.Some? && r.systolic.Some?
      && r.diastolic.Some? && r.temperature.Some? && r.respiratoryRate.Some?
  {}

  /**
   * After a tick, the newest row's heart-rate, oxygen and pressure flags agree
   * with the banner, while its temperature and respiratory flags follow the
   * table's ranges, which the banner never consults.
   */
  lemma NewestRecordMatchesBanner(v: Vitals, s: Sample, startTime: int)
    requires Aligned(v)
    ensures var w := Append(v, s);
      var r := RecordAt(w, startTime, TableLength(w) - 1);
      && (r.heartRateAlert <==> HeartRateMessage(s.heartRate) in AlertMessages(s))
      && (r.oxygenAlert <==> OxygenMessage(s.oxygenLevel) in AlertMessages(s))
      && (r.bpAlert <==> BloodPressureMessage(s.systolic, s.diastolic) in AlertMessages(s))
      && (r.tempAlert <==> !AlertThresholds.temperature.Contains(s.temperature))
      && (r.respiratoryAlert <==> !AlertThresholds.respiratoryRate.Contains(s.respiratoryRate))
  {
    var w := Append(v, s);
    AppendKeepsShape(v, s);
    var n := |w.heartRate|;
    PushShape(v.heartRate, s.heartRate);
    PushShape(v.oxygenLevel, s.oxygenLevel);
    PushShape(v.systolic, s.systolic);
    PushShape(v.diastolic, s.diastolic);
    PushShape(v.temperature, s.temperature);
    PushShape(v.respiratoryRate, s.respiratoryRate);
    assert TableLength(w) == n;
  }

  /** Heart rates 70, 130, 72 give three rows; only the middle one is flagged. */
  lemma TableExample(startTime: int)
    ensures var v := Vitals([700, 1300, 720], [980, 980, 980], [1100, 1100, 1100], [700, 700, 700], [366, 366, 366], [160, 160, 160]);
      && TableLength(v) == 3
      && !RecordAt(v, startTime, 0).heartRateAlert
      && RecordAt(v, startTime, 1).heartRateAlert
      && !RecordAt(v, startTime, 2).heartRateAlert
  {}

  /** The seven columns the exporter reads from a row: the values, or `null`; the flags are not exported. */
  function ExportColumns(r: TableRecord): CsvRecord<int>
  {
    CsvRecord(r.time, NumberOrNull(r.heartRate), NumberOrNull(r.oxygenLevel), NumberOrNull(r.systolic),
      NumberOrNull(r.diastolic), NumberOrNull(r.temperature), NumberOrNull(r.respiratoryRate))
  }

  function NumberOrNull(x: Option<int>): Option<Json>
  {
    match x
    case Some(t) => Some(JNum(t))
    case None => Some(JNull)
  }

  /** `handleExport`: the CSV text of the table, with the locale rendering of a timestamp as a parameter. */
  function ExportText(v: Vitals, startTime: int, showTime: int -> string): string
  {
    CsvText(seq(TableLength(v), i requires 0 <= i < TableLength(v) => ExportColumns(RecordAt(v, startTime, i))), showTime)
  }

  /** An exported value cell is a number's rendering or empty, so it holds no comma and no newline. */
  lemma ValueCellIsPlain(x: Option<int>)
    ensures ',' !in CellText(NumberOrNull(x)) && '\n' !in CellText(NumberOrNull(x))
  {
    if x.Some? {
      TenthsTextIsPlain(x.value);
    }
  }

  /** The value cells of an exported row hold no comma and no newline. */
  lemma ExportCellsPlain(r: TableRecord, showTime: int -> string)
    ensures var cells := RowCells(ExportColumns(r), showTime);
      forall k :: 1 <= k < |cells| ==> ',' !in cells[k] && '\n' !in cells[k]
  {
    ValueCellIsPlain(r.heartRate);
    ValueCellIsPlain(r.oxygenLevel);
    ValueCellIsPlain(r.systolic);
    ValueCellIsPlain(r.diastolic);
    ValueCellIsPlain(r.temperature);
    ValueCellIsPlain(r.respiratoryRate);
  }

  /**
   * Every exported row splits back at its commas into exactly the seven
   * cells in column order, provided the rendered time holds no comma.
   */
  lemma ExportRowSplits(r: TableRecord, showTime: int -> string)
    requires ',' !in showTime(r.time)
    ensures Split(RowLine(ExportColumns(r), showTime), ',') == RowCells(ExportColumns(r), showTime)
  {
    ExportCellsPlain(r, showTime);
    RowLineCells(ExportColumns(r), showTime);
  }

  /**
   * The export of a table holds the header line and one line per row,
   * provided the rendered times hold no newline.
   */
  lemma ExportTextLines(v: Vitals, startTime: int, showTime: int -> string)
    requires forall t :: '\n' !in showTime(t)
    ensures |Split(ExportText(v, startTime, showTime), '\n')| == TableLength(v) + 1
  {
    var records := seq(TableLength(v), i requires 0 <= i < TableLength(v) => ExportColumns(RecordAt(v, startTime, i)));
    forall i, k | 0 <= i < |records| && 0 <= k < |Headers| ensures '\n' !in RowCells(records[i], showTime)[k] {
      ExportCellsPlain(RecordAt(v, startTime, i), showTime);
    }
    CsvTextLines(records, showTime);
  }

  /** The pulse, oxygen and systolic renderings the export example needs. */
  lemma ExampleRenderingsFirst()
    ensures TenthsToString(800) == "80" && TenthsToString(970) == "97" && TenthsToString(1100) == "110"
  {
    assert NatToString(8) == "8" && NatToString(9) == "9" && NatToString(1) == "1";
    assert NatToString(80) == "80" && NatToString(97) == "97" && NatToString(11) == "11";
    assert NatToString(110) == "110";
  }

  /** The diastolic, temperature and respiration renderings the export example needs. */
  lemma ExampleRenderingsSecond()
    ensures TenthsToString(700) == "70" && TenthsToString(366) == "36.6" && TenthsToString(160) == "16"
  {
    assert NatToString(7) == "7" && NatToString(3) == "3" && NatToString(1) == "1";
    assert NatToString(70) == "70" && NatToString(36) == "36" && NatToString(16) == "16";
    assert [DigitChar(6)] == "6";
  }

  /**
   * A reading of 80 BPM, 97%, 110/70, 36.6 degrees and 16 breaths exports as
   * the time followed by those numbers in column order.
   */
  lemma ExportRowExample(time: int, showTime: int -> string)
    ensures var r := TableRecord(time, Some(800), Some(970), Some(1100), Some(700), Some(366), Some(160),
                                 false, false, false, false, false);
      RowCells(ExportColumns(r), showTime) == [showTime(time), "80", "97", "110", "70", "36.6", "16"]
  {
    ExampleRenderingsFirst();
    ExampleRenderingsSecond();
  }

  // ---------------------------------------------------------------------
  // display helpers

  /** `Math.trunc`-style remainder of JavaScript's `%`: it takes the sign of the dividend. */
  function JsRem(a: int, b: int): (r: int)
    requires b > 0
    ensures a >= 0 ==> r == a % b
  {
    if a >= 0 then a % b else -((-a) % b)
  }

  /**
   * `formatDuration(ms)`: "h:mm:ss" when at least an hour has passed,
   * otherwise "m:ss". Division by a positive divisor in Dafny is
   * `Math.floor` of the quotient.
   */
  function FormatDuration(ms: int): string
  {
    var total := ms / 1000;
    var h := total / 3600;
    var m := JsRem(total, 3600) / 60;
    var s := JsRem(total, 60);
    if h > 0 then IntToString(h) + ":" + PadStart2(IntToString(m)) + ":" + PadStart2(IntToString(s))
    else IntToString(m) + ":" + PadStart2(IntToString(s))
  }

  lemma TwoDigits(x: nat)
    requires x < 60
    ensures var p := PadStart2(NatToString(x)); |p| == 2 && AllDigits(p) && DigitsValue(p) == x
  {
    var p := PadStart2(NatToString(x));
    NatToStringRoundTrip(x);
    if x < 10 {
      assert p == ['0', DigitChar(x)];
      assert p[..1] == ['0'];
    } else {
      assert |NatToString(x)| == 2 by { assert |NatToString(x / 10)| == 1; }
    }
  }

  /** Three runs of digits joined by ':' split back into those runs. */
  lemma SplitClock3(a: string, b: string, c: string)
    requires AllDigits(a) && AllDigits(b) && AllDigits(c)
    ensures Split(a + ":" + b + ":" + c, ':') == [a, b, c]
  {
    var rest := b + ":" + c;
    SplitClock2(b, c);
    DigitsHaveNoSpecials(a);
    assert a + ":" + b + ":" + c == a + [':'] + rest;
    SplitAtFirstSeparator(a, ':', rest);
  }

  /** Two runs of digits joined by ':' split back into those runs. */
  lemma SplitClock2(a: string, b: string)
    requires AllDigits(a) && AllDigits(b)
    ensures Split(a + ":" + b, ':') == [a, b]
  {
    DigitsHaveNoSpecials(a);
    DigitsHaveNoSpecials(b);
    SplitWithoutSeparator(b, ':');
    assert a + ":" + b == a + [':'] + b;
    SplitAtFirstSeparator(a, ':', b);
  }

  /** For a non-negative time the fields are the hours, the minutes within the hour and the seconds within the minute. */
  lemma DurationText(ms: int)
    requires ms >= 0
    ensures var total := ms / 1000;
      var mm := PadStart2(NatToString(total % 3600 / 60));
      var ss := PadStart2(NatToString(total % 60));
      FormatDuration(ms) ==
        if total / 3600 > 0 then NatToString(total / 3600) + ":" + mm + ":" + ss
        else NatToString(total % 3600 / 60) + ":" + ss
  {}

  /** Whole seconds split into hours, minutes below 60 and seconds below 60. */
  lemma ClockArithmetic(total: nat)
    ensures total == total / 3600 * 3600 + total % 3600 / 60 * 60 + total % 60
    ensures total % 3600 / 60 < 60
    ensures total < 3600 <==> total / 3600 == 0
  {
    var r := total % 3600;
    assert total == total / 3600 * 3600 + r;
    assert r == r / 60 * 60 + r % 60;
    assert total == (total / 3600 * 60 + r / 60) * 60 + r % 60;
    assert total % 60 == r % 60;
  }

  /** From one hour on, the text is hours, two-digit minutes and two-digit seconds. */
  lemma LongDurationFields(ms: int)
    requires ms >= 0 && ms / 1000 >= 3600
    ensures var total := ms / 1000;
      Split(FormatDuration(ms), ':')
        == [NatToString(total / 3600), PadStart2(NatToString(total % 3600 / 60)), PadStart2(NatToString(total % 60))]
  {
    var total := ms / 1000;
    ClockArithmetic(total);
    DurationText(ms);
    TwoDigits(total % 3600 / 60);
    TwoDigits(total % 60);
    SplitClock3(NatToString(total / 3600), PadStart2(NatToString(total % 3600 / 60)), PadStart2(NatToString(total % 60)));
  }

  /** Below one hour, the text is minutes and two-digit seconds. */
  lemma ShortDurationFields(ms: int)
    requires ms >= 0 && ms / 1000 < 3600
    ensures var total := ms / 1000;
      Split(FormatDuration(ms), ':') == [NatToString(total % 3600 / 60), PadStart2(NatToString(total % 60))]
  {
    var total := ms / 1000;
    ClockArithmetic(total);
    DurationText(ms);
    TwoDigits(total % 60);
    SplitClock2(NatToString(total % 3600 / 60), PadStart2(NatToString(total % 60)));
  }

  /** A two-digit field reads back as its value. */
  lemma TwoDigitField(p: string, x: nat)
    requires x < 60 && p == PadStart2(NatToString(x))
    ensures |p| == 2 && AllDigits(p) && DigitsValue(p) == x
  {
    TwoDigits(x);
  }

  /** An unpadded field reads back as its value. */
  lemma NatField(p: string, x: nat)
    requires p == NatToString(x)
    ensures AllDigits(p) && DigitsValue(p) == x
  {
    NatToStringRoundTrip(x);
  }

  /** The readings of an "h:mm:ss" field list. */
  lemma LongClockValue(parts: seq<string>, h: nat, m: nat, s: nat)
    requires m < 60 && s < 60
    requires |parts| == 3
    requires parts[0] == NatToString(h) && parts[1] == PadStart2(NatToString(m)) && parts[2] == PadStart2(NatToString(s))
    ensures forall i :: 0 <= i < |parts| ==> AllDigits(parts[i])
    ensures |parts[1]| == 2 && |parts[2]| == 2
    ensures DigitsValue(parts[0]) == h && DigitsValue(parts[1]) == m && DigitsValue(parts[2]) == s
  {
    NatField(parts[0], h);
    TwoDigitField(parts[1], m);
    TwoDigitField(parts[2], s);
  }

  /** The readings of an "m:ss" field list. */
  lemma ShortClockValue(parts: seq<string>, m: nat, s: nat)
    requires s < 60
    requires parts == [NatToString(m), PadStart2(NatToString(s))]
    ensures forall i :: 0 <= i < |parts| ==> AllDigits(parts[i])
    ensures |parts| == 2 && |parts[1]| == 2
    ensures DigitsValue(parts[0]) == m && DigitsValue(parts[1]) == s
  {
    NatField(parts[0], m);
    TwoDigitField(parts[1], s);
  }

  /**
   * For a non-negative elapsed time the text reads back as the whole seconds
   * elapsed: hours, minutes and seconds separated by ':' with minutes and
   * seconds two digits below 60, and the hours field only from one hour on.
   */
  lemma FormatDurationReadsBack(ms: int)
    requires ms >= 0
    ensures var parts := Split(FormatDuration(ms), ':'); var total := ms / 1000;
      && (forall i :: 0 <= i < |parts| ==> AllDigits(parts[i]))
      && |parts[|parts| - 1]| == 2
      && (total >= 3600 ==>
            |parts| == 3 && |parts[1]| == 2 && DigitsValue(parts[1]) < 60
            && DigitsValue(parts[0]) * 3600 + DigitsValue(parts[1]) * 60 + DigitsValue(parts[2]) == total)
      && (total < 3600 ==>
            |parts| == 2 && DigitsValue(parts[0]) < 60
            && DigitsValue(parts[0]) * 60 + DigitsValue(parts[1]) == total)
  {
    if ms / 1000 >= 3600 {
      LongDurationReadsBack(ms);
    } else {
      ShortDurationReadsBack(ms);
    }
  }

  /** From one hour on: three fields, hours then padded minutes and seconds. */
  lemma LongDurationReadsBack(ms: int)
    requires ms / 1000 >= 3600
    ensures var parts := Split(FormatDuration(ms), ':'); var total := ms / 1000;
      && (forall i :: 0 <= i < |parts| ==> AllDigits(parts[i]))
      && |parts| == 3 && |parts[1]| == 2 && |parts[2]| == 2 && DigitsValue(parts[1]) < 60
      && DigitsValue(parts[0]) * 3600 + DigitsValue(parts[1]) * 60 + DigitsValue(parts[2]) == total
  {
    var total := ms / 1000;
    ClockArithmetic(total);
    LongDurationFields(ms);
    LongClockValue(Split(FormatDuration(ms), ':'), total / 3600, total % 3600 / 60, total % 60);
  }

  /** Below one hour: two fields, minutes then padded seconds. */
  lemma ShortDurationReadsBack(ms: int)
    requires 0 <= ms && ms / 1000 < 3600
    ensures var parts := Split(FormatDuration(ms), ':'); var total := ms / 1000;
      && (forall i :: 0 <= i < |parts| ==> AllDigits(parts[i]))
      && |parts| == 2 && |parts[1]| == 2 && DigitsValue(parts[0]) < 60
      && DigitsValue(parts[0]) * 60 + DigitsValue(parts[1]) == total
  {
    var total := ms / 1000;
    ClockArithmetic(total);
    ShortDurationFields(ms);
    ShortClockValue(Split(FormatDuration(ms), ':'), total % 3600 / 60, total % 60);
  }

  /** The data handed to a chart: labels and values newest first. */
  datatype Chart = Chart(labels: seq<int>, title: string, data: seq<int>, borderColor: string)

  function Reverse(s: seq<int>): (r: seq<int>)
    ensures |r| == |s|
    ensures forall i :: 0 <= i < |s| ==> r[i] == s[|s| - 1 - i]
  {
    if |s| == 0 then [] else Reverse(s[1..]) + [s[0]]
  }

  /** Reversing twice restores the history, so the chart loses and reorders nothing else. */
  lemma ReverseTwice(s: seq<int>)
    ensures Reverse(Reverse(s)) == s
  {}

  /** `getChartData(arr, label, color)`: reversed copies of the indices and of the values. */
  function ChartData(arr: seq<int>, name: string, color: string): (c: Chart)
    ensures |c.labels| == |arr| && |c.data| == |arr|
    ensures forall i :: 0 <= i < |arr| ==> c.labels[i] == |arr| - 1 - i && c.data[i] == arr[|arr| - 1 - i]
    ensures c.title == name && c.borderColor == color
  {
    Chart(Reverse(seq(|arr|, i => i)), name, Reverse(arr), color)
  }

  /** The colour class of a card: grey for no value, red out of range, green otherwise. */
  datatype ColorClass = Gray | Red | Green

  function ColorName(c: ColorClass): string
  {
    match c
    case Gray => "text-gray-700"
    case Red => "text-red-500"
    case Green => "text-green-500"
  }

  function HrColor(v: Option<int>): (c: ColorClass)
    ensures c == Gray <==> v.None?
    ensures c == Red <==> v.Some? && HeartRateAbnormal(v.value)
  {
    match v
    case None => Gray
    case Some(x) => if x < AlertThresholds.heartRate.min || x > AlertThresholds.heartRate.max then Red else Green
  }

  function OxColor(v: Option<int>): (c: ColorClass)
    ensures c == Gray <==> v.None?
    ensures c == Red <==> v.Some? && OxygenLow(v.value)
  {
    match v
    case None => Gray
    case Some(x) => if x < AlertThresholds.oxygenLevel.min then Red else Green
  }

  /** `bpColor(s, d)`: grey when either pressure is missing. */
  function BpColor(s: Option<int>, d: Option<int>): (c: ColorClass)
    ensures c == Gray <==> s.None? || d.None?
    ensures c == Red <==> s.Some? && d.Some? && BloodPressureAbnormal(s.value, d.value)
  {
    if s.None? || d.None? then Gray
    else if s.value < AlertThresholds.systolic.min || s.value > AlertThresholds.systolic.max
         || d.value < AlertThresholds.diastolic.min || d.value > AlertThresholds.diastolic.max then Red
    else Green
  }

  /** `h[h.length - 1] ?? 0`: the newest value, or 0 for an empty history. */
  function Latest(h: seq<int>): (x: int)
    ensures |h| > 0 ==> x == h[|h| - 1]
    ensures |h| == 0 ==> x == 0
  {
    if |h| > 0 then h[|h| - 1] else 0
  }

  /**
   * Before the first tick the cards show 0 and are therefore red; after a
   * tick each card is red exactly when the banner holds that signal's alert.
   */
  lemma CardColors(v: Vitals, s: Sample)
    ensures HrColor(Some(Latest(EmptyVitals.heartRate))) == Red
    ensures OxColor(Some(Latest(EmptyVitals.oxygenLevel))) == Red
    ensures BpColor(Some(Latest(EmptyVitals.systolic)), Some(Latest(EmptyVitals.diastolic))) == Red
    ensures var w := Append(v, s);
      && (HrColor(Some(Latest(w.heartRate))) == Red <==> HeartRateMessage(s.heartRate) in AlertMessages(s))
      && (OxColor(Some(Latest(w.oxygenLevel))) == Red <==> OxygenMessage(s.oxygenLevel) in AlertMessages(s))
      && ((BpColor(Some(Latest(w.systolic)), Some(Latest(w.diastolic))) == Red)
          <==> BloodPressureMessage(s.systolic, s.diastolic) in AlertMessages(s))
  {
    PushShape(v.heartRate, s.heartRate);
    PushShape(v.oxygenLevel, s.oxygenLevel);
    PushShape(v.systolic, s.systolic);
    PushShape(v.diastolic, s.diastolic);
  }
}
