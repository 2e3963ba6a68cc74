/**
 * The treatment-log form: the free-text fields of the log, the list of
 * additional actions, the vital signs shown beside the form with their
 * out-of-range highlights, saving to and loading from browser storage.
 *
 * The form data is kept as the JavaScript object it is (`data`), so that a
 * stored log merged over it, or a field name the handler has not seen
 * before, behaves as it does in the browser.
 */
module TreatmentLogs {
  import opened Wrappers
  import opened Text
  import opened Json
  import opened BrowserStorage

  // ---------------------------------------------------------------------
  // the form's values

  /** A pulse or oxygen reading: the empty text before the first reading, then a whole number. */
  datatype Reading = Blank | Value(n: int)

  datatype VitalSigns = VitalSigns(pulse: Reading, oxygenLevel: Reading, bloodPressure: string)

  const NoVitals: VitalSigns := VitalSigns(Blank, Blank, "")

  const StorageKey: string := "treatmentLog"

  /** "The data was saved successfully". */
  const SavedText: string := "הנתונים נשמרו בהצלחה"

  /** "Error saving the data". */
  const SaveFailedText: string := "שגיאה בשמירת הנתונים"

  /** The form as it starts and as clearing leaves it: empty texts and no actions. */
  function InitialData(startTime: string): (data: map<string, Json>)
    ensures data.Keys == {"startTime", "action", "medication", "notes", "additionalActions"}
    ensures data["startTime"] == JStr(startTime)
    ensures data["action"] == data["medication"] == data["notes"] == JStr("")
    ensures data["additionalActions"] == JArr([])
  {
    map["startTime" := JStr(startTime), "action" := JStr(""), "medication" := JStr(""),
        "notes" := JStr(""), "additionalActions" := JArr([])]
  }

  /** The action being composed: an object of texts, `type` and `time` empty to begin with. */
  const EmptyAction: map<string, string> := map["type" := "", "time" := ""]

  predicate Filled(action: map<string, string>, key: string)
  {
    key in action && action[key] != ""
  }

  /** An action can be added only when both its type and its time are set. */
  predicate ReadyToAdd(action: map<string, string>)
  {
    Filled(action, "type") && Filled(action, "time")
  }

  /** The action as the object appended to the list. */
  function ActionJson(action: map<string, string>): Json
  {
    JObj(map k | k in action :: JStr(action[k]))
  }

  // ---------------------------------------------------------------------
  // adding and removing actions

  /**
   * `[...x]`: the elements of an array, or the characters of a string;
   * `None` where the spread throws because the value is not iterable
   * (a missing property, `null`, a number, a boolean or an object).
   */
  function SpreadItems(x: Option<Json>): Option<seq<Json>>
  {
    match x
    case Some(JArr(a)) => Some(a)
    case Some(JStr(s)) => Some(Characters(s))
    case _ => None
  }

  function Lookup(data: map<string, Json>, key: string): Option<Json>
  {
    if key in data then Some(data[key]) else None
  }

  /** The form data after the action is appended, or `None` when the update throws. */
  function AfterAdd(data: map<string, Json>, action: map<string, string>): Option<map<string, Json>>
  {
    match SpreadItems(Lookup(data, "additionalActions"))
    case None => None
    case Some(items) => Some(data["additionalActions" := JArr(items + [ActionJson(action)])])
  }

  /** `a.filter((_, i) => i !== index)`. */
  function WithoutIndex(a: seq<Json>, index: int): seq<Json>
  {
    if |a| == 0 then []
    else (if index == 0 then [] else [a[0]]) + WithoutIndex(a[1..], index - 1)
  }

  /** The form data after the action at `index` is removed, or `None` when the list is not an array. */
  function AfterRemove(data: map<string, Json>, index: int): Option<map<string, Json>>
  {
    match Lookup(data, "additionalActions")
    case Some(JArr(a)) => Some(data["additionalActions" := JArr(WithoutIndex(a, index))])
    case _ => None
  }

  /** Filtering by index deletes exactly the element at that index, and nothing when it is out of range. */
  lemma {:induction false} WithoutIndexSpec(a: seq<Json>, index: int)
    ensures 0 <= index < |a| ==> WithoutIndex(a, index) == a[..index] + a[index + 1..]
    ensures !(0 <= index < |a|) ==> WithoutIndex(a, index) == a
  {
    if |a| > 0 {
      WithoutIndexSpec(a[1..], index - 1);
      if index == 0 {
        assert a[1..] == a[..0] + a[1..];
      } else if 0 < index < |a| {
        assert a[1..][..index - 1] == a[1..index];
        assert a[1..][index..] == a[index + 1..];
        assert [a[0]] + a[1..index] == a[..index];
      } else {
        assert [a[0]] + a[1..] == a;
      }
    }
  }

  /**
   * A ready action is appended after the existing ones, leaving every other
   * field as it was; a text in place of the list is spread into its
   * characters first, and any other value makes the update throw.
   */
  lemma AddAppendsAtEnd(data: map<string, Json>, action: map<string, string>)
    ensures Lookup(data, "additionalActions").Some? && data["additionalActions"].JArr? ==>
              var r := AfterAdd(data, action);
              r.Some? && r.value["additionalActions"] == JArr(data["additionalActions"].items + [ActionJson(action)])
    ensures Lookup(data, "additionalActions").Some? && data["additionalActions"].JStr? ==>
              var r := AfterAdd(data, action);
              r.Some? && r.value["additionalActions"] == JArr(Characters(data["additionalActions"].s) + [ActionJson(action)])
    ensures AfterAdd(data, action).None? <==>
              !("additionalActions" in data && (data["additionalActions"].JArr? || data["additionalActions"].JStr?))
    ensures AfterAdd(data, action).Some? ==>
              var r := AfterAdd(data, action).value;
              r.Keys == data.Keys && forall k :: k in data && k != "additionalActions" ==> r[k] == data[k]
  {
  }

  /** Removing the action just added gives the form data back. */
  lemma AddThenRemoveLast(data: map<string, Json>, action: map<string, string>, a: seq<Json>)
    requires "additionalActions" in data && data["additionalActions"] == JArr(a)
    ensures AfterAdd(data, action).Some?
    ensures AfterRemove(AfterAdd(data, action).value, |a|) == Some(data)
  {
    var added := a + [ActionJson(action)];
    WithoutIndexSpec(added, |a|);
    assert added[..|a|] + added[|a| + 1..] == a;
    var grown := data["additionalActions" := JArr(added)];
    assert AfterAdd(data, action) == Some(grown);
    assert grown["additionalActions" := JArr(a)] == data;
  }

  /** Removal keeps the other actions in order, shortening the list by one exactly when the index is in range. */
  lemma RemoveKeepsOrder(data: map<string, Json>, index: int)
    requires "additionalActions" in data && data["additionalActions"].JArr?
    ensures var a := data["additionalActions"].items;
            var r := AfterRemove(data, index);
            && r.Some?
            && r.value.Keys == data.Keys
            && (forall k :: k in data && k != "additionalActions" ==> r.value[k] == data[k])
            && (0 <= index < |a| ==>
                  var b := r.value["additionalActions"].items;
                  |b| == |a| - 1
                  && (forall i :: 0 <= i < index ==> b[i] == a[i])
                  && (forall i :: index <= i < |b| ==> b[i] == a[i + 1]))
            && (!(0 <= index < |a|) ==> r.value == data)
  {
    WithoutIndexSpec(data["additionalActions"].items, index);
  }

  /** The appended object holds exactly the composed fields, each as text. */
  lemma ActionJsonFields(action: map<string, string>)
    ensures ActionJson(action).fields.Keys == action.Keys
    ensures forall k :: k in action ==> ActionJson(action).fields[k] == JStr(action[k])
  {
  }

  // ---------------------------------------------------------------------
  // saving and loading

  function ReadingJson(r: Reading): Json
  {
    match r
    case Blank => JStr("")
    case Value(n) => JNum(n * 10)
  }

  function VitalsJson(v: VitalSigns): Json
  {
    JObj(map["pulse" := ReadingJson(v.pulse), "oxygenLevel" := ReadingJson(v.oxygenLevel),
             "bloodPressure" := JStr(v.bloodPressure)])
  }

  /** The object saved: the form data with a copy of the current vital signs under `vitalSigns`. */
  function Payload(data: map<string, Json>, v: VitalSigns): map<string, Json>
  {
    data["vitalSigns" := VitalsJson(v)]
  }

  /** The saved object keeps every form field except one named `vitalSigns`, and carries the three readings. */
  lemma PayloadFields(data: map<string, Json>, v: VitalSigns)
    ensures Payload(data, v).Keys == data.Keys + {"vitalSigns"}
    ensures forall k :: k in data && k != "vitalSigns" ==> Payload(data, v)[k] == data[k]
    ensures var vs := Payload(data, v)["vitalSigns"];
            vs.JObj? && Truthy(vs)
            && vs.fields.Keys == {"pulse", "oxygenLevel", "bloodPressure"}
            && vs.fields["bloodPressure"] == JStr(v.bloodPressure)
            && (v.pulse.Value? ==> vs.fields["pulse"] == JNum(v.pulse.n * 10))
            && (v.oxygenLevel.Value? ==> vs.fields["oxygenLevel"] == JNum(v.oxygenLevel.n * 10))
  {
  }

  /** `{...prev, ...parsed}`: the stored properties win over the current ones. */
  function Merged(data: map<string, Json>, stored: Json): map<string, Json>
  {
    data + SpreadEntries(stored)
  }

  /**
   * Merging a stored object keeps every current field it does not name and
   * takes every field it does, `startTime` included.
   */
  lemma MergeStoredObject(data: map<string, Json>, m: map<string, Json>)
    ensures Merged(data, JObj(m)).Keys == data.Keys + m.Keys
    ensures forall k :: k in m ==> Merged(data, JObj(m))[k] == m[k]
    ensures forall k :: k in data && k !in m ==> Merged(data, JObj(m))[k] == data[k]
    ensures "startTime" in m ==> Merged(data, JObj(m))["startTime"] == m["startTime"]
  {
  }

  // ---------------------------------------------------------------------
  // highlights

  /** The text the reading shows for systolic and diastolic pressure: `${s}/${d}`. */
  function PressureText(systolic: int, diastolic: int): string
  {
    IntToString(systolic) + "/" + IntToString(diastolic)
  }

  /** `x < bound` for the result of `Number()`: false for NaN. */
  predicate Below(x: Option<real>, bound: real) { x.Some? && x.value < bound }

  /** `x > bound` for the result of `Number()`: false for NaN. */
  predicate Above(x: Option<real>, bound: real) { x.Some? && x.value > bound }

  /** The pulse card is red when a non-zero pulse is below 60 or above 100. */
  predicate PulseHighlighted(v: VitalSigns)
  {
    v.pulse.Value? && v.pulse.n != 0 && (v.pulse.n < 60 || v.pulse.n > 100)
  }

  /** The oxygen card is red when a non-zero level is below 95. */
  predicate OxygenHighlighted(v: VitalSigns)
  {
    v.oxygenLevel.Value? && v.oxygenLevel.n != 0 && v.oxygenLevel.n < 95
  }

  /**
   * The blood-pressure card is red when the text splits on '/' into exactly
   * two parts whose numbers put systolic outside 90-140 or diastolic
   * outside 60-90.
   */
  predicate PressureHighlighted(bp: string)
  {
    bp != "" &&
    var parts := Split(bp, '/');
    |parts| == 2 &&
    var s := JsNumber(parts[0]);
    var d := JsNumber(parts[1]);
    Below(s, 90.0) || Above(s, 140.0) || Below(d, 60.0) || Above(d, 90.0)
  }

  /** For a reading rendered as `s/d`, the highlight is exactly the range test on `s` and `d`. */
  lemma PressureHighlightOfReading(s: nat, d: nat)
    ensures PressureHighlighted(PressureText(s, d)) <==> s < 90 || s > 140 || d < 60 || d > 90
  {
    var a := NatToString(s);
    var b := NatToString(d);
    DigitsHaveNoSpecials(a);
    DigitsHaveNoSpecials(b);
    assert PressureText(s, d) == a + ['/'] + b;
    SplitPair(a, '/', b);
    NatNumberRoundTrip(s);
    NatNumberRoundTrip(d);
  }

  /** A reading without its systolic part reads that part as 0 and is red. */
  lemma MissingSystolicHighlighted()
    ensures PressureHighlighted("/80")
  {
    SplitPair("", '/', "80");
    assert "/80" == "" + ['/'] + "80";
  }

  /** A text with two or more slashes is never red, whatever its numbers. */
  lemma ThreePartsNotHighlighted(bp: string)
    requires multiset(bp)['/'] >= 2
    ensures !PressureHighlighted(bp)
  {
    SplitCount(bp, '/');
  }

  /** A text without a slash is never red. */
  lemma OnePartNotHighlighted(bp: string)
    requires '/' !in bp
    ensures !PressureHighlighted(bp)
  {
    SplitWithoutSeparator(bp, '/');
  }

  /**
   * A systolic part that is not a number compares false both ways, so only
   * the diastolic number can turn the card red.
   */
  lemma NonNumberSystolic(x: string, d: nat)
    requires '/' !in x && JsNumber(x).None?
    ensures PressureHighlighted(x + "/" + NatToString(d)) <==> d < 60 || d > 90
  {
    var b := NatToString(d);
    DigitsHaveNoSpecials(b);
    assert x + "/" + b == x + ['/'] + b;
    SplitPair(x, '/', b);
    NatNumberRoundTrip(d);
  }

  /** "x/80" is not red: the letter is NaN and 80 is in range. */
  lemma NonNumberNotHighlighted()
    ensures !PressureHighlighted("x/80")
  {
    LetterIsNaN();
    NonNumberSystolic("x", 80);
    assert NatToString(80) == "80";
    assert "x" + "/" + NatToString(80) == "x/80";
  }

  lemma LetterIsNaN()
    ensures JsNumber("x").None?
  {
    SplitWithoutSeparator("x", '.');
    TrimUnchanged("x");
    assert !IsDigit("x"[0]);
  }

  /**
   * The simulated readings (pulse 60-99, oxygen 95-99, systolic 110-119,
   * diastolic 70-79) never turn a card red.
   */
  lemma SimulatedReadingsNeverHighlighted(p: int, o: int, s: int, d: int)
    requires 60 <= p <= 99 && 95 <= o <= 99 && 110 <= s <= 119 && 70 <= d <= 79
    ensures var v := VitalSigns(Value(p), Value(o), PressureText(s, d));
            !PulseHighlighted(v) && !OxygenHighlighted(v) && !PressureHighlighted(v.bloodPressure)
  {
    PressureHighlightOfReading(s, d);
  }

  // ---------------------------------------------------------------------
  // the form

  /** The outcome of pressing "+": nothing to add, appended, or the update threw. */
  datatype AddOutcome = Ignored | Added | Threw

  class TreatmentLog {
    var data: map<string, Json>
    var newAction: map<string, string>
    var vitalSigns: VitalSigns
    var savedMessage: string
    var lastSavedTime: Option<string>

    constructor (startTime: string)
      ensures data == InitialData(startTime) && newAction == EmptyAction
      ensures vitalSigns == NoVitals && savedMessage == "" && lastSavedTime.None?
    {
      data := InitialData(startTime);
      newAction := EmptyAction;
      vitalSigns := NoVitals;
      savedMessage := "";
      lastSavedTime := None;
    }

    /** A form field changed: the named property takes the typed text. */
    method Change(name: string, value: string)
      modifies this
      ensures data == old(data)[name := JStr(value)]
      ensures newAction == old(newAction) && vitalSigns == old(vitalSigns)
      ensures savedMessage == old(savedMessage) && lastSavedTime == old(lastSavedTime)
    {
      data := data[name := JStr(value)];
    }

    /** A field of the action being composed changed. */
    method ChangeNewAction(name: string, value: string)
      modifies this
      ensures newAction == old(newAction)[name := value]
      ensures data == old(data) && vitalSigns == old(vitalSigns)
      ensures savedMessage == old(savedMessage) && lastSavedTime == old(lastSavedTime)
    {
      newAction := newAction[name := value];
    }

    /** A new simulated reading arrives. */
    method SetVitalSigns(pulse: int, oxygenLevel: int, systolic: int, diastolic: int)
      modifies this
      ensures vitalSigns == VitalSigns(Value(pulse), Value(oxygenLevel), PressureText(systolic, diastolic))
      ensures data == old(data) && newAction == old(newAction)
      ensures savedMessage == old(savedMessage) && lastSavedTime == old(lastSavedTime)
    {
      vitalSigns := VitalSigns(Value(pulse), Value(oxygenLevel), PressureText(systolic, diastolic));
    }

    /**
     * "+": nothing happens unless type and time are set; otherwise the
     * action is appended and the composer emptied. The composer is emptied
     * by the handler itself, so it is emptied also when the stored list is
     * not iterable; the append then throws (`Threw`) and the form data is
     * not updated.
     */
    method AddAction() returns (outcome: AddOutcome)
      modifies this
      ensures !ReadyToAdd(old(newAction)) ==> outcome == Ignored && data == old(data) && newAction == old(newAction)
      ensures ReadyToAdd(old(newAction)) && AfterAdd(old(data), old(newAction)).Some? ==>
                outcome == Added && data == AfterAdd(old(data), old(newAction)).value && newAction == EmptyAction
      ensures ReadyToAdd(old(newAction)) && AfterAdd(old(data), old(newAction)).None? ==>
                outcome == Threw && data == old(data) && newAction == EmptyAction
      ensures vitalSigns == old(vitalSigns) && savedMessage == old(savedMessage) && lastSavedTime == old(lastSavedTime)
    {
      if !Filled(newAction, "type") || !Filled(newAction, "time") {
        return Ignored;
      }
      var next := AfterAdd(data, newAction);
      newAction := EmptyAction;
      if next.None? {
        return Threw;
      }
      data := next.value;
      outcome := Added;
    }

    /** The remove button of the action at `index`; `false` when the stored list is not an array and the update throws. */
    method RemoveAction(index: int) returns (ok: bool)
      modifies this
      ensures ok <==> AfterRemove(old(data), index).Some?
      ensures data == if ok then AfterRemove(old(data), index).value else old(data)
      ensures newAction == old(newAction) && vitalSigns == old(vitalSigns)
      ensures savedMessage == old(savedMessage) && lastSavedTime == old(lastSavedTime)
    {
      var next := AfterRemove(data, index);
      ok := next.Some?;
      if ok {
        data := next.value;
      }
    }

    /**
     * Save: the payload is written to storage as text; the message reports
     * success or failure and the save time is recorded only on success.
     */
    method Submit(store: LocalStore, stringify: Json -> string, accepted: bool, savedAt: string) returns (payload: Json)
      modifies this, store
      ensures payload == JObj(Payload(old(data), old(vitalSigns)))
      ensures store.items == if accepted then old(store.items)[StorageKey := stringify(payload)] else old(store.items)
      ensures savedMessage == if accepted then SavedText else SaveFailedText
      ensures lastSavedTime == if accepted then Some(savedAt) else old(lastSavedTime)
      ensures data == old(data) && newAction == old(newAction) && vitalSigns == old(vitalSigns)
    {
      payload := JObj(Payload(data, vitalSigns));
      var ok := store.SetItem(StorageKey, stringify(payload), accepted);
      if ok {
        savedMessage := SavedText;
        lastSavedTime := Some(savedAt);
      } else {
        savedMessage := SaveFailedText;
      }
    }

    /** The message disappears three seconds after a save. */
    method ExpireMessage()
      modifies this
      ensures savedMessage == ""
      ensures data == old(data) && newAction == old(newAction)
      ensures vitalSigns == old(vitalSigns) && lastSavedTime == old(lastSavedTime)
    {
      savedMessage := "";
    }

    /** Clear: a fresh form with a new start time; the vital signs stay. */
    method Clear(startTime: string)
      modifies this
      ensures data == InitialData(startTime) && newAction == EmptyAction
      ensures savedMessage == "" && lastSavedTime.None?
      ensures vitalSigns == old(vitalSigns)
    {
      data := InitialData(startTime);
      newAction := EmptyAction;
      savedMessage := "";
      lastSavedTime := None;
    }

    /**
     * On opening: a non-empty stored text that parses is merged over the
     * form; a missing or empty text, or one that does not parse, changes
     * nothing.
     */
    method LoadStored(store: LocalStore, parse: string -> Option<Json>)
      modifies this
      ensures var raw := store.GetItem(StorageKey);
              data == if raw.Some? && raw.value != "" && parse(raw.value).Some?
                      then Merged(old(data), parse(raw.value).value)
                      else old(data)
      ensures newAction == old(newAction) && vitalSigns == old(vitalSigns)
      ensures savedMessage == old(savedMessage) && lastSavedTime == old(lastSavedTime)
    {
      var raw := store.GetItem(StorageKey);
      if raw.Some? && raw.value != "" {
        var parsed := parse(raw.value);
        if parsed.Some? {
          data := Merged(data, parsed.value);
        }
      }
    }
  }
}
