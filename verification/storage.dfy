/**
 * On-device storage (src/utils/storage.ts): eight app settings under prefixed keys
 * with per-key defaults, the two clear operations, and the client-side daily
 * message counter with its limit of 7. The device store is a map from key to slot;
 * "today" is a parameter.
 */
module Storage {
  import opened Options
  import opened Json

  /** The prefix of every storage key (`STORAGE_PREFIX`). */
  const Prefix: string := "@samvaad_"

  /** The app settings kept on the device (`StorageKey`). */
  datatype Key =
    | LanguageKey
    | BasicInfoKey
    | AssessmentAnswersKey
    | PriorityProfileKey
    | AssessmentCompleteKey
    | SavedGuideKey
    | ChatHistoryKey
    | IsPremiumKey

  /** Every setting, in the order `KEYS` lists them. */
  const AllKeys: seq<Key> := [LanguageKey, BasicInfoKey, AssessmentAnswersKey, PriorityProfileKey,
    AssessmentCompleteKey, SavedGuideKey, ChatHistoryKey, IsPremiumKey]

  /** A setting's own name. */
  function Name(k: Key): string {
    match k
    case LanguageKey => "language"
    case BasicInfoKey => "basicInfo"
    case AssessmentAnswersKey => "assessmentAnswers"
    case PriorityProfileKey => "priorityProfile"
    case AssessmentCompleteKey => "assessmentComplete"
    case SavedGuideKey => "savedGuide"
    case ChatHistoryKey => "chatHistory"
    case IsPremiumKey => "isPremium"
  }

  /** The device key of a setting (`KEYS[k]`). */
  function KeyName(k: Key): string {
    Prefix + Name(k)
  }

  /** The device keys of all settings. */
  function KeyNames(): set<string> {
    set k | k in AllKeys :: KeyName(k)
  }

  /** The value a setting reads as when nothing usable is stored (`DEFAULTS`). */
  function Default(k: Key): Value {
    match k
    case LanguageKey => Str("en")
    case BasicInfoKey => Null
    case AssessmentAnswersKey => Obj(map[])
    case PriorityProfileKey => Null
    case AssessmentCompleteKey => Bool(false)
    case SavedGuideKey => Arr([])
    case ChatHistoryKey => Arr([])
    case IsPremiumKey => Bool(false)
  }

  /** What a device key holds: a parsed value, or text that cannot be read back (a parse or read failure). */
  datatype Slot = Stored(v: Value) | Unreadable

  type Store = map<string, Slot>

  /** `getStorageItem`: the stored value, or the default when the key is absent or unreadable. */
  function GetItem(store: Store, k: Key): Value {
    if KeyName(k) in store && store[KeyName(k)].Stored? then store[KeyName(k)].v else Default(k)
  }

  /** `setStorageItem`: store `v` under the setting's key. */
  function SetItem(store: Store, k: Key, v: Value): Store {
    store[KeyName(k) := Stored(v)]
  }

  /** `clearAll`: remove every setting's key. */
  function ClearAll(store: Store): Store {
    store - KeyNames()
  }

  /** The settings `clearAssessment` removes. */
  predicate IsAssessmentKey(k: Key) {
    k == AssessmentAnswersKey || k == PriorityProfileKey || k == AssessmentCompleteKey || k == SavedGuideKey
  }

  /** `clearAssessment`: remove the answers, profile, completion flag and saved guide. */
  function ClearAssessment(store: Store): Store {
    store - {KeyName(AssessmentAnswersKey), KeyName(PriorityProfileKey), KeyName(AssessmentCompleteKey), KeyName(SavedGuideKey)}
  }

  /** Different settings have different keys, and every key starts with the prefix. */
  lemma KeyNamesDistinct(k1: Key, k2: Key)
    ensures k1 != k2 ==> KeyName(k1) != KeyName(k2)
    ensures |Prefix| <= |KeyName(k1)| && KeyName(k1)[..|Prefix|] == Prefix
  {
    if k1 != k2 {
      assert Name(k1) != Name(k2);
      assert KeyName(k1)[|Prefix|..] == Name(k1) && KeyName(k2)[|Prefix|..] == Name(k2);
    }
  }

  /** Reading a setting back after storing it gives the stored value, and no other setting changes. */
  lemma GetAfterSet(store: Store, k: Key, v: Value, other: Key)
    ensures GetItem(SetItem(store, k, v), k) == v
    ensures other != k ==> GetItem(SetItem(store, k, v), other) == GetItem(store, other)
  {
    KeyNamesDistinct(k, other);
  }

  /** A setting that is absent or unreadable reads as its default. */
  lemma MissingReadsDefault(store: Store, k: Key)
    requires KeyName(k) !in store || store[KeyName(k)] == Unreadable
    ensures GetItem(store, k) == Default(k)
  {
  }

  /** After `clearAll` every setting reads as its default; keys that are not settings are kept. */
  lemma ClearAllResets(store: Store, k: Key, other: string)
    ensures GetItem(ClearAll(store), k) == Default(k)
    ensures other !in KeyNames() && other in store ==> other in ClearAll(store) && ClearAll(store)[other] == store[other]
  {
    assert k in AllKeys;
    assert KeyName(k) in KeyNames();
  }

  /**
   * After `clearAssessment` the four assessment settings read as their defaults and
   * every other setting, and every key that is not one of the four, is unchanged.
   */
  lemma ClearAssessmentResets(store: Store, k: Key, other: string)
    ensures IsAssessmentKey(k) ==> GetItem(ClearAssessment(store), k) == Default(k)
    ensures !IsAssessmentKey(k) ==> GetItem(ClearAssessment(store), k) == GetItem(store, k)
    ensures other in store && (forall a: Key :: IsAssessmentKey(a) ==> other != KeyName(a)) ==>
      other in ClearAssessment(store) && ClearAssessment(store)[other] == store[other]
  {
    KeyNamesDistinct(k, AssessmentAnswersKey);
    KeyNamesDistinct(k, PriorityProfileKey);
    KeyNamesDistinct(k, AssessmentCompleteKey);
    KeyNamesDistinct(k, SavedGuideKey);
  }

  /** The key of the daily message counter (`DAILY_LIMIT_KEY`). */
  const DailyCountKey: string := Prefix + "dailyMessageCount"

  /** Messages a user may send per day, as the app counts them (`DAILY_LIMIT`). */
  const DailyLimit: int := 7

  /** The counter key is not a setting's key, so neither clear operation touches it. */
  lemma DailyCountKeyIsNoSetting(k: Key)
    ensures KeyName(k) != DailyCountKey
    ensures DailyCountKey !in KeyNames()
  {
    forall a | a in AllKeys
      ensures KeyName(a) != DailyCountKey
    {
      assert KeyName(a)[|Prefix|..] == Name(a);
      assert DailyCountKey[|Prefix|..] == "dailyMessageCount";
    }
    assert k in AllKeys;
  }

  /** The stored counter, if the key holds a readable value. */
  function StoredCount(store: Store): Option<Value> {
    if DailyCountKey in store && store[DailyCountKey].Stored? then Some(store[DailyCountKey].v) else None
  }

  /** `getDailyCount`: the stored counter if it is dated today, otherwise a fresh one for today. */
  function GetDailyCount(store: Store, today: string): (d: DailyCount)
    ensures d.date == today
    ensures StoredCount(store).Some? && DecodeDailyCount(StoredCount(store).value).Some?
      && DecodeDailyCount(StoredCount(store).value).value.date == today
      ==> d == DecodeDailyCount(StoredCount(store).value).value
    ensures d.count != 0 ==>
      StoredCount(store).Some? && DecodeDailyCount(StoredCount(store).value) == Some(DailyCount(today, d.count))
  {
    DailyCount(today, CountForDay(StoredCount(store), today))
  }

  /** `canSendMessage`: today's count is below the limit. */
  function CanSendMessage(store: Store, today: string): bool {
    GetDailyCount(store, today).count < DailyLimit
  }

  /** `getRemainingMessages`: the limit minus today's count, never below zero. */
  function GetRemainingMessages(store: Store, today: string): (n: nat)
    ensures n == if GetDailyCount(store, today).count < DailyLimit then DailyLimit - GetDailyCount(store, today).count else 0
    ensures n <= DailyLimit || GetDailyCount(store, today).count < 0
  {
    var left := DailyLimit - GetDailyCount(store, today).count;
    if left > 0 then left else 0
  }

  /** `incrementDailyMessageCount`: store today's count plus one, dated today. */
  function IncrementDailyMessageCount(store: Store, today: string): Store {
    store[DailyCountKey := Stored(EncodeDailyCount(DailyCount(today, GetDailyCount(store, today).count + 1)))]
  }

  /** A user may send exactly when messages remain. */
  lemma CanSendIffRemaining(store: Store, today: string)
    ensures CanSendMessage(store, today) <==> GetRemainingMessages(store, today) > 0
    ensures GetDailyCount(store, today).count >= 0 ==>
      GetRemainingMessages(store, today) + GetDailyCount(store, today).count == DailyLimit || !CanSendMessage(store, today)
  {
  }

  /** A counter dated any other day reads as zero messages today. */
  lemma NewDayResets(store: Store, today: string, d: DailyCount)
    requires DailyCountKey in store && store[DailyCountKey] == Stored(EncodeDailyCount(d)) && d.date != today
    ensures GetDailyCount(store, today) == DailyCount(today, 0)
    ensures CanSendMessage(store, today) && GetRemainingMessages(store, today) == DailyLimit
  {
    CountForDayOfEncoded(d, today);
  }

  /**
   * Incrementing adds one to today's count and changes nothing else: every setting
   * reads as before.
   */
  lemma IncrementCounts(store: Store, today: string, k: Key)
    ensures GetDailyCount(IncrementDailyMessageCount(store, today), today).count == GetDailyCount(store, today).count + 1
    ensures GetItem(IncrementDailyMessageCount(store, today), k) == GetItem(store, k)
  {
    CountForDayOfEncoded(DailyCount(today, GetDailyCount(store, today).count + 1), today);
    DailyCountKeyIsNoSetting(k);
  }

  /** Counting only messages that were allowed keeps a non-negative count within the limit. */
  lemma AllowedIncrementStaysWithinLimit(store: Store, today: string)
    requires 0 <= GetDailyCount(store, today).count
    requires CanSendMessage(store, today)
    ensures GetDailyCount(IncrementDailyMessageCount(store, today), today).count <= DailyLimit
  {
    CountForDayOfEncoded(DailyCount(today, GetDailyCount(store, today).count + 1), today);
  }

  /** Clearing all settings keeps the daily counter. */
  lemma ClearAllKeepsDailyCount(store: Store, today: string)
    ensures GetDailyCount(ClearAll(store), today) == GetDailyCount(store, today)
  {
    DailyCountKeyIsNoSetting(LanguageKey);
  }
}
