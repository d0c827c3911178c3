/**
 * The durable store shared by the app and its monitor extension: one
 * app-group defaults domain holding four records.  A record holds either a
 * value that decodes, or bytes that do not (`Corrupt`); every load reads a
 * missing or undecodable record as absent or as its default.
 */
module SharedStore {
  import opened Wrappers
  import opened StrictnessModes
  import opened ScheduleModes
  import opened SleepSessions
  import opened FamilyControls

  /** The four records of the shared defaults. */
  datatype Key = ActiveSessionKey | AllowedAppsKey | RecurringScheduleKey | DefaultStrictnessKey

  /** The defaults key of each record (`AppGroupConstants.Keys`). */
  function KeyName(k: Key): string {
    match k
    case ActiveSessionKey => "activeSession"
    case AllowedAppsKey => "allowedApps"
    case RecurringScheduleKey => "recurringSchedule"
    case DefaultStrictnessKey => "defaultStrictness"
  }

  /** The four key names are distinct, so writing one record never overwrites another. */
  lemma KeyNamesDistinct(a: Key, b: Key)
    ensures KeyName(a) == KeyName(b) <==> a == b
  {
    if a != b {
      assert KeyName(a)[0] != KeyName(b)[0] || |KeyName(a)| != |KeyName(b)|;
    }
  }

  /**
   * What a defaults value can hold: the JSON data of a session, a selection
   * or a schedule, a plain string, or data that decodes as none of them.
   */
  datatype Blob =
    | SessionData(session: SleepSession)
    | SelectionData(selection: ActivitySelection)
    | ScheduleData(schedule: RecurringSchedule)
    | Text(raw: string)
    | Corrupt

  /** The four records as the loads read them. */
  datatype Records = Records(
    session: Option<SleepSession>,
    allowedApps: ActivitySelection,
    schedule: Option<RecurringSchedule>,
    defaultStrictness: StrictnessMode)

  class SharedSessionStore {
    var defaults: map<Key, Blob>

    constructor (initial: map<Key, Blob>)
      ensures defaults == initial
    {
      defaults := initial;
    }

    /** The session record decodes exactly when it holds session data, and then it is that session. */
    function LoadSession(): (r: Option<SleepSession>)
      reads this
      ensures r.Some? <==> ActiveSessionKey in defaults && defaults[ActiveSessionKey].SessionData?
      ensures r.Some? ==> defaults[ActiveSessionKey] == SessionData(r.value)
    {
      if ActiveSessionKey in defaults && defaults[ActiveSessionKey].SessionData? then
        Some(defaults[ActiveSessionKey].session)
      else None
    }

    /** The stored selection, or the empty selection when the record is missing or does not decode. */
    function LoadAllowedApps(): (r: ActivitySelection)
      reads this
      ensures AllowedAppsKey in defaults && defaults[AllowedAppsKey].SelectionData? ==>
        defaults[AllowedAppsKey] == SelectionData(r)
      ensures !(AllowedAppsKey in defaults && defaults[AllowedAppsKey].SelectionData?) ==> r == EmptySelection
    {
      if AllowedAppsKey in defaults && defaults[AllowedAppsKey].SelectionData? then
        defaults[AllowedAppsKey].selection
      else EmptySelection
    }

    /** The schedule record decodes exactly when it holds schedule data, and then it is that schedule. */
    function LoadSchedule(): (r: Option<RecurringSchedule>)
      reads this
      ensures r.Some? <==> RecurringScheduleKey in defaults && defaults[RecurringScheduleKey].ScheduleData?
      ensures r.Some? ==> defaults[RecurringScheduleKey] == ScheduleData(r.value)
    {
      if RecurringScheduleKey in defaults && defaults[RecurringScheduleKey].ScheduleData? then
        Some(defaults[RecurringScheduleKey].schedule)
      else None
    }

    /** Strict exactly when the record is the string "strict"; anything else, missing included, reads as flexible. */
    function LoadDefaultStrictness(): (r: StrictnessMode)
      reads this
      ensures r == Strict <==> DefaultStrictnessKey in defaults && defaults[DefaultStrictnessKey] == Text("strict")
    {
      if DefaultStrictnessKey in defaults && defaults[DefaultStrictnessKey].Text? then
        FromRawValue(defaults[DefaultStrictnessKey].raw).GetOr(Flexible)
      else Flexible
    }

    /** What the four loads return. */
    function Loaded(): Records
      reads this
    {
      Records(LoadSession(), LoadAllowedApps(), LoadSchedule(), LoadDefaultStrictness())
    }

    /** Writes the session record when it encodes (`encoded`); otherwise nothing changes. */
    method SaveSession(session: SleepSession, encoded: bool)
      modifies this
      ensures defaults == if encoded then old(defaults)[ActiveSessionKey := SessionData(session)] else old(defaults)
      ensures Loaded() == if encoded then old(Loaded()).(session := Some(session)) else old(Loaded())
    {
      if encoded {
        defaults := defaults[ActiveSessionKey := SessionData(session)];
      }
    }

    method ClearSession()
      modifies this
      ensures defaults == old(defaults) - {ActiveSessionKey}
      ensures Loaded() == old(Loaded()).(session := None)
    {
      defaults := defaults - {ActiveSessionKey};
    }

    method SaveAllowedApps(selection: ActivitySelection, encoded: bool)
      modifies this
      ensures defaults == if encoded then old(defaults)[AllowedAppsKey := SelectionData(selection)] else old(defaults)
      ensures Loaded() == if encoded then old(Loaded()).(allowedApps := selection) else old(Loaded())
    {
      if encoded {
        defaults := defaults[AllowedAppsKey := SelectionData(selection)];
      }
    }

    method SaveSchedule(schedule: RecurringSchedule, encoded: bool)
      modifies this
      ensures defaults == if encoded then old(defaults)[RecurringScheduleKey := ScheduleData(schedule)] else old(defaults)
      ensures Loaded() == if encoded then old(Loaded()).(schedule := Some(schedule)) else old(Loaded())
    {
      if encoded {
        defaults := defaults[RecurringScheduleKey := ScheduleData(schedule)];
      }
    }

    method ClearSchedule()
      modifies this
      ensures defaults == old(defaults) - {RecurringScheduleKey}
      ensures Loaded() == old(Loaded()).(schedule := None)
    {
      defaults := defaults - {RecurringScheduleKey};
    }

    /** Stores the raw value as a plain string; there is no encoding step that could fail. */
    method SaveDefaultStrictness(mode: StrictnessMode)
      modifies this
      ensures defaults == old(defaults)[DefaultStrictnessKey := Text(RawValue(mode))]
      ensures Loaded() == old(Loaded()).(defaultStrictness := mode)
    {
      defaults := defaults[DefaultStrictnessKey := Text(RawValue(mode))];
    }
  }

  /** An unknown raw string under the strictness key reads back as flexible. */
  lemma UnknownStrictnessIsFlexible(raw: string)
    requires raw != "strict" && raw != "flexible"
    ensures FromRawValue(raw).GetOr(Flexible) == Flexible
  {
  }
}
