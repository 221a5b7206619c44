/**
 * The cloud-backed user storage (src/utils/firestore.ts): one document per user
 * holding ten fields, read with per-field defaults, written by merging, reset by the
 * two clear operations, and the daily message counter kept both in the document and
 * in a device cache. Whether a read or a write of the document succeeds is a
 * parameter; "today" is a parameter.
 */
module Firestore {
  import opened Options
  import opened Json
  import Storage

  /** The fields of a stored document, by name. */
  type Fields = map<string, Value>

  /** A user's document: absent until something is first written to it. */
  type Document = Option<Fields>

  /** The fields the app reads and writes (`StorageKey` of the cloud store). */
  datatype DocField =
    | Language
    | BasicInfo
    | AssessmentAnswers
    | PriorityProfile
    | AssessmentComplete
    | SavedGuide
    | ChatHistory
    | IsPremium
    | GuideSummary
    | RetakeCount

  /** A field's name in the document. */
  function Name(f: DocField): string {
    match f
    case Language => "language"
    case BasicInfo => "basicInfo"
    case AssessmentAnswers => "assessmentAnswers"
    case PriorityProfile => "priorityProfile"
    case AssessmentComplete => "assessmentComplete"
    case SavedGuide => "savedGuide"
    case ChatHistory => "chatHistory"
    case IsPremium => "isPremium"
    case GuideSummary => "guideSummary"
    case RetakeCount => "retakeCount"
  }

  /** The value a field has in a new user's document (`DEFAULTS`). */
  function Default(f: DocField): Value {
    match f
    case Language => Str("en")
    case BasicInfo => Null
    case AssessmentAnswers => Obj(map[])
    case PriorityProfile => Null
    case AssessmentComplete => Bool(false)
    case SavedGuide => Arr([])
    case ChatHistory => Arr([])
    case IsPremium => Bool(false)
    case GuideSummary => Null
    case RetakeCount => Num(0)
  }

  /** `DEFAULTS` as document fields. */
  const DefaultFields: Fields := map[
    "language" := Str("en"), "basicInfo" := Null, "assessmentAnswers" := Obj(map[]),
    "priorityProfile" := Null, "assessmentComplete" := Bool(false), "savedGuide" := Arr([]),
    "chatHistory" := Arr([]), "isPremium" := Bool(false), "guideSummary" := Null,
    "retakeCount" := Num(0)]

  /** Fields of the document that are not app settings: the daily counter and the subscription tier. */
  const DailyCountField: string := "dailyMessageCount"
  const SubscriptionTierField: string := "subscriptionTier"

  /** Different fields have different names, and no field is the counter or the tier. */
  lemma NamesDistinct(f: DocField, g: DocField)
    ensures f != g ==> Name(f) != Name(g)
    ensures Name(f) != DailyCountField && Name(f) != SubscriptionTierField
  {
  }

  /** `DefaultFields` holds exactly the ten fields, each with its default. */
  lemma DefaultFieldsAreDefaults(f: DocField)
    ensures Name(f) in DefaultFields && DefaultFields[Name(f)] == Default(f)
    ensures forall k :: k in DefaultFields ==> exists g: DocField :: Name(g) == k
  {
    assert Name(Language) == "language" && Name(BasicInfo) == "basicInfo";
    assert Name(AssessmentAnswers) == "assessmentAnswers" && Name(PriorityProfile) == "priorityProfile";
    assert Name(AssessmentComplete) == "assessmentComplete" && Name(SavedGuide) == "savedGuide";
    assert Name(ChatHistory) == "chatHistory" && Name(IsPremium) == "isPremium";
    assert Name(GuideSummary) == "guideSummary" && Name(RetakeCount) == "retakeCount";
  }

  /** The document's data, or no fields when it does not exist (`doc.data() ?? {}`). */
  function Data(doc: Document): Fields {
    doc.GetOr(map[])
  }

  /**
   * `getField`: the stored value when the document exists and has the field (a stored
   * null included), otherwise the default; a failed read also gives the default.
   */
  function GetField(doc: Document, readOk: bool, f: DocField): Value {
    if readOk && doc.Some? && Name(f) in doc.value then doc.value[Name(f)] else Default(f)
  }

  /** A value a merging write stores whole: anything but a non-empty object. */
  predicate IsLeaf(v: Value) {
    !(v.Obj? && |v.fields| > 0)
  }

  /**
   * The value a merging `set` leaves where `stored` was when it writes `v`: a
   * non-empty object is merged key by key into the stored object (a stored value
   * that is not an object counts as an empty one); every other value, the empty
   * object included, replaces what was stored.
   */
  function MergeValue(stored: Option<Value>, v: Value): (r: Value)
    ensures IsLeaf(v) ==> r == v
    ensures v.Obj? ==> r.Obj?
    ensures v.Obj? ==> forall k :: k in v.fields && IsLeaf(v.fields[k]) ==> k in r.fields && r.fields[k] == v.fields[k]
    ensures !IsLeaf(v) && stored.Some? && stored.value.Obj? ==>
      forall k :: k in stored.value.fields && k !in v.fields ==> k in r.fields && r.fields[k] == stored.value.fields[k]
    ensures r.Obj? && !IsLeaf(v) ==>
      forall k :: k in r.fields ==> k in v.fields || (stored.Some? && stored.value.Obj? && k in stored.value.fields)
    decreases v
  {
    if IsLeaf(v) then v
    else
      var base := if stored.Some? && stored.value.Obj? then stored.value.fields else map[];
      Obj(map k | k in base.Keys + v.fields.Keys ::
        if k in v.fields then MergeValue(if k in base then Some(base[k]) else None, v.fields[k]) else base[k])
  }

  /** The document's fields after merging `{ [k]: v }` into them. */
  function MergeField(data: Fields, k: string, v: Value): Fields {
    data[k := MergeValue(if k in data then Some(data[k]) else None, v)]
  }

  /** `setField`: merge one field into the document, creating it if needed; a failed write changes nothing. */
  function SetField(doc: Document, writeOk: bool, f: DocField, v: Value): Document {
    if writeOk then Some(MergeField(Data(doc), Name(f), v)) else doc
  }

  /** The nullish-coalescing `x ?? d`: `x` unless it is absent or null. */
  function Coalesce(x: Option<Value>, d: Value): (r: Value)
    ensures x.Some? && x.value != Null ==> r == x.value
    ensures x.None? || x.value == Null ==> r == d
  {
    match x
    case Some(v) => if v.Null? then d else v
    case None => d
  }

  /** What a read of the document gives a reader: a value per field. */
  type UserData = map<DocField, Value>

  /** Every field, in `DEFAULTS` order. */
  const AllFields: seq<DocField> := [Language, BasicInfo, AssessmentAnswers, PriorityProfile,
    AssessmentComplete, SavedGuide, ChatHistory, IsPremium, GuideSummary, RetakeCount]

  /** The result of `loadAllUserData`: the loaded fields and the device store after caching the counter. */
  datatype Loaded = Loaded(data: UserData, cache: Storage.Store)

  /** A field of stored data with `?? DEFAULTS[f]` applied. */
  function LoadField(data: Fields, f: DocField): Value {
    Coalesce(if Name(f) in data then Some(data[Name(f)]) else None, Default(f))
  }

  /**
   * `loadAllUserData`: all defaults when the document is missing or unreadable;
   * otherwise each field with null or absent replaced by its default, and the
   * document's counter copied to the device cache when it is dated today. (A value
   * whose `date` is a string is an object, so the truthiness test is implied.)
   */
  function LoadAllUserData(doc: Document, readOk: bool, cache: Storage.Store, today: string): Loaded {
    if !readOk || doc.None? then
      Loaded(map f | f in AllFields :: Default(f), cache)
    else
      var data := doc.value;
      var cache' :=
        if DailyCountField in data && Field(data[DailyCountField], "date") == Some(Str(today))
        then cache[Storage.DailyCountKey := Storage.Stored(data[DailyCountField])]
        else cache;
      Loaded(map f | f in AllFields :: LoadField(data, f), cache')
  }

  /**
   * `incrementDailyMessageCount`: today's cached count plus one is written to the
   * device cache and merged into the document; a failed document write still leaves
   * the cache updated.
   */
  function IncrementDailyMessageCount(doc: Document, writeOk: bool, cache: Storage.Store, today: string): (Document, Storage.Store) {
    var updated := EncodeDailyCount(DailyCount(today, Storage.GetDailyCount(cache, today).count + 1));
    (if writeOk then Some(MergeField(Data(doc), DailyCountField, updated)) else doc,
     cache[Storage.DailyCountKey := Storage.Stored(updated)])
  }

  /**
   * `clearAll`: replace the whole document by the defaults, keeping the previous
   * `retakeCount` and `isPremium` as read by `getField` (null read as 0 and false).
   * The two reads are separate document reads, and each may fail on its own.
   */
  function ClearAll(doc: Document, retakeReadOk: bool, premiumReadOk: bool, writeOk: bool): Document {
    if writeOk then
      var retake := Coalesce(Some(GetField(doc, retakeReadOk, RetakeCount)), Num(0));
      var premium := Coalesce(Some(GetField(doc, premiumReadOk, IsPremium)), Bool(false));
      Some(DefaultFields[Name(RetakeCount) := retake][Name(IsPremium) := premium])
    else doc
  }

  /** The fields `clearAssessment` resets. */
  predicate IsAssessmentField(f: DocField) {
    f == AssessmentAnswers || f == PriorityProfile || f == AssessmentComplete || f == SavedGuide || f == GuideSummary
  }

  /**
   * `clearAssessment`: merge the defaults of the five assessment fields into the
   * document. Each default is a leaf (the answers' default is the empty object), so
   * the merge replaces each field whole.
   */
  function ClearAssessment(doc: Document, writeOk: bool): Document {
    if writeOk then
      Some(Data(doc)[Name(AssessmentAnswers) := Default(AssessmentAnswers)]
                    [Name(PriorityProfile) := Default(PriorityProfile)]
                    [Name(AssessmentComplete) := Default(AssessmentComplete)]
                    [Name(SavedGuide) := Default(SavedGuide)]
                    [Name(GuideSummary) := Default(GuideSummary)])
    else doc
  }

  /** A missing document, a missing field or a failed read gives the default; a stored null is returned as null. */
  lemma GetFieldDefaults(doc: Document, readOk: bool, f: DocField)
    ensures GetField(doc, readOk, f) != Default(f) ==> readOk && doc.Some? && Name(f) in doc.value
    ensures readOk && doc.Some? && Name(f) in doc.value && doc.value[Name(f)] == Null ==> GetField(doc, readOk, f) == Null
  {
  }

  /**
   * Merging a field: a leaf value reads back as written; an object reads back as an
   * object holding each of its leaf entries as written, and every entry of a stored
   * object that it does not mention, as it was. No other key of the document
   * changes, and a failed write changes nothing.
   */
  lemma SetFieldMerges(doc: Document, f: DocField, v: Value, k: string)
    ensures IsLeaf(v) ==> GetField(SetField(doc, true, f, v), true, f) == v
    ensures v.Obj? ==> (
      var r := GetField(SetField(doc, true, f, v), true, f);
      r.Obj? && forall j :: j in v.fields && IsLeaf(v.fields[j]) ==> j in r.fields && r.fields[j] == v.fields[j])
    ensures !IsLeaf(v) && Name(f) in Data(doc) && Data(doc)[Name(f)].Obj? ==> (
      var r := GetField(SetField(doc, true, f, v), true, f);
      forall j :: j in Data(doc)[Name(f)].fields && j !in v.fields ==> j in r.fields && r.fields[j] == Data(doc)[Name(f)].fields[j])
    ensures k != Name(f) && k in Data(doc) ==> k in Data(SetField(doc, true, f, v)) && Data(SetField(doc, true, f, v))[k] == Data(doc)[k]
    ensures k != Name(f) ==> (k in Data(SetField(doc, true, f, v)) <==> k in Data(doc))
    ensures SetField(doc, false, f, v) == doc
  {
    var stored := if Name(f) in Data(doc) then Some(Data(doc)[Name(f)]) else None;
    assert GetField(SetField(doc, true, f, v), true, f) == MergeValue(stored, v);
  }

  /**
   * Writing answers merges them into the stored ones: an answer the write does not
   * mention stays, and only an empty object clears them.
   */
  lemma AnswersMergeIntoStored()
    ensures MergeValue(Some(Obj(map["family_01" := Str("A"), "family_02" := Str("B")])), Obj(map["family_01" := Str("C")]))
      == Obj(map["family_01" := Str("C"), "family_02" := Str("B")])
    ensures MergeValue(Some(Obj(map["family_01" := Str("A")])), Obj(map[])) == Obj(map[])
  {
    var stored := Obj(map["family_01" := Str("A"), "family_02" := Str("B")]);
    var r := MergeValue(Some(stored), Obj(map["family_01" := Str("C")]));
    assert r.fields.Keys == {"family_01", "family_02"};
  }

  /** Merging a counter into a document's fields stores it readably and keeps every other key as it was. */
  lemma MergeCounterFacts(data: Fields, d: DailyCount, k: string)
    ensures DailyCountField in MergeField(data, DailyCountField, EncodeDailyCount(d))
    ensures DecodeDailyCount(MergeField(data, DailyCountField, EncodeDailyCount(d))[DailyCountField]) == Some(d)
    ensures k != DailyCountField ==>
      (k in MergeField(data, DailyCountField, EncodeDailyCount(d)) <==> k in data)
      && (k in data ==> MergeField(data, DailyCountField, EncodeDailyCount(d))[k] == data[k])
  {
    MergedCounterDecodes(if DailyCountField in data then Some(data[DailyCountField]) else None, d);
  }

  /** A merged counter decodes as the counter written, whatever was stored before. */
  lemma MergedCounterDecodes(stored: Option<Value>, d: DailyCount)
    ensures DecodeDailyCount(MergeValue(stored, EncodeDailyCount(d))) == Some(d)
  {
    var r := MergeValue(stored, EncodeDailyCount(d));
    assert EncodeDailyCount(d).fields["date"] == Str(d.date);
    assert EncodeDailyCount(d).fields["count"] == Num(d.count);
  }

  /** Reading a merged field back and reading another field: the other reads as before. */
  lemma SetFieldLeavesOthers(doc: Document, f: DocField, v: Value, g: DocField)
    requires doc.Some?
    ensures g != f ==> GetField(SetField(doc, true, f, v), true, g) == GetField(doc, true, g)
  {
    NamesDistinct(f, g);
  }

  /** A missing or unreadable document loads as all defaults and leaves the cache alone. */
  lemma LoadMissingGivesDefaults(doc: Document, readOk: bool, cache: Storage.Store, today: string, f: DocField)
    requires !readOk || doc.None?
    ensures f in LoadAllUserData(doc, readOk, cache, today).data
    ensures LoadAllUserData(doc, readOk, cache, today).data[f] == Default(f)
    ensures LoadAllUserData(doc, readOk, cache, today).cache == cache
  {
    assert f in AllFields;
  }

  /**
   * Loading gives each field its stored value when that is present and not null,
   * and the default otherwise; unlike `getField`, a stored null loads as the default.
   */
  lemma LoadFieldValues(data: Fields, cache: Storage.Store, today: string, f: DocField)
    ensures f in LoadAllUserData(Some(data), true, cache, today).data
    ensures Name(f) in data && data[Name(f)] != Null ==>
      LoadAllUserData(Some(data), true, cache, today).data[f] == data[Name(f)] == GetField(Some(data), true, f)
    ensures Name(f) !in data || data[Name(f)] == Null ==>
      LoadAllUserData(Some(data), true, cache, today).data[f] == Default(f)
  {
    assert f in AllFields;
  }

  /**
   * Loading a document whose counter `d` is dated today copies it to the cache, so the
   * quota checks then see its count; a counter from another day leaves the cache alone.
   */
  lemma LoadCachesTodaysCount(data: Fields, d: DailyCount, cache: Storage.Store, today: string)
    requires DailyCountField in data && data[DailyCountField] == EncodeDailyCount(d)
    ensures d.date == today ==>
      Storage.GetDailyCount(LoadAllUserData(Some(data), true, cache, today).cache, today).count == d.count
    ensures d.date == today ==>
      (Storage.CanSendMessage(LoadAllUserData(Some(data), true, cache, today).cache, today) <==> d.count < Storage.DailyLimit)
    ensures d.date != today ==> LoadAllUserData(Some(data), true, cache, today).cache == cache
  {
    CountForDayOfEncoded(d, today);
  }

  /**
   * Incrementing adds one to today's cached count, writes the same counter into the
   * document when the write succeeds, and changes no field of the document.
   */
  lemma IncrementSyncsCacheAndDocument(doc: Document, writeOk: bool, cache: Storage.Store, today: string, f: DocField)
    ensures var (doc', cache') := IncrementDailyMessageCount(doc, writeOk, cache, today);
      Storage.GetDailyCount(cache', today).count == Storage.GetDailyCount(cache, today).count + 1
      && (writeOk ==> (DailyCountField in Data(doc')
          && DecodeDailyCount(Data(doc')[DailyCountField]) == Some(DailyCount(today, Storage.GetDailyCount(cache, today).count + 1))))
      && (!writeOk ==> doc' == doc)
      && GetField(doc', true, f) == GetField(doc, true, f)
  {
    var d := DailyCount(today, Storage.GetDailyCount(cache, today).count + 1);
    CountForDayOfEncoded(d, today);
    MergeCounterFacts(Data(doc), d, Name(f));
    NamesDistinct(f, f);
  }

  /**
   * After a successful `clearAll` the document holds exactly the ten fields: every
   * field other than `retakeCount` and `isPremium` has its default, and those two keep
   * their previous values (null or unreadable becoming the default).
   */
  lemma ClearAllKeepsRetakeAndPremium(doc: Document, retakeReadOk: bool, premiumReadOk: bool, f: DocField)
    ensures ClearAll(doc, retakeReadOk, premiumReadOk, false) == doc
    ensures f != RetakeCount && f != IsPremium ==>
      GetField(ClearAll(doc, retakeReadOk, premiumReadOk, true), true, f) == Default(f)
    ensures GetField(ClearAll(doc, retakeReadOk, premiumReadOk, true), true, RetakeCount)
      == Coalesce(Some(GetField(doc, retakeReadOk, RetakeCount)), Num(0))
    ensures GetField(ClearAll(doc, retakeReadOk, premiumReadOk, true), true, IsPremium)
      == Coalesce(Some(GetField(doc, premiumReadOk, IsPremium)), Bool(false))
    ensures forall k :: k in Data(ClearAll(doc, retakeReadOk, premiumReadOk, true)) ==> exists g: DocField :: Name(g) == k
  {
    DefaultFieldsAreDefaults(f);
    NamesDistinct(f, RetakeCount);
    NamesDistinct(f, IsPremium);
  }

  /**
   * A successful `clearAll` drops the document's daily counter and subscription tier,
   * since neither is a field it writes back.
   */
  lemma ClearAllDropsCounterAndTier(doc: Document, retakeReadOk: bool, premiumReadOk: bool)
    ensures DailyCountField !in Data(ClearAll(doc, retakeReadOk, premiumReadOk, true))
    ensures SubscriptionTierField !in Data(ClearAll(doc, retakeReadOk, premiumReadOk, true))
  {
    DefaultFieldsAreDefaults(Language);
    forall g: DocField
      ensures Name(g) != DailyCountField && Name(g) != SubscriptionTierField
    {
      NamesDistinct(g, g);
    }
  }

  /**
   * When the read of `isPremium` fails and the read of `retakeCount` succeeds, a
   * premium user's `clearAll` keeps the retake count but writes `isPremium: false`.
   */
  lemma ClearAllMixedReadsLosePremium()
    ensures var doc := Some(map["retakeCount" := Num(2), "isPremium" := Bool(true)]);
      GetField(ClearAll(doc, true, false, true), true, RetakeCount) == Num(2)
      && GetField(ClearAll(doc, true, false, true), true, IsPremium) == Bool(false)
  {
  }

  /**
   * A successful `clearAssessment` resets exactly the five assessment fields: they
   * read as their defaults, and every other key of the document, the counter
   * included, is unchanged.
   */
  lemma ClearAssessmentResetsExactly(doc: Document, f: DocField, k: string)
    ensures ClearAssessment(doc, false) == doc
    ensures IsAssessmentField(f) ==> GetField(ClearAssessment(doc, true), true, f) == Default(f)
    ensures doc.Some? && !IsAssessmentField(f) ==> GetField(ClearAssessment(doc, true), true, f) == GetField(doc, true, f)
    ensures (forall a: DocField :: IsAssessmentField(a) ==> k != Name(a)) ==>
      (k in Data(ClearAssessment(doc, true)) <==> k in Data(doc))
      && (k in Data(doc) ==> Data(ClearAssessment(doc, true))[k] == Data(doc)[k])
  {
    ClearAssessmentResetsFields(doc, f);
    ClearAssessmentKeepsOtherKeys(doc, k);
  }

  /** After a successful `clearAssessment` the assessment fields read as defaults and the others as before. */
  lemma ClearAssessmentResetsFields(doc: Document, f: DocField)
    ensures IsAssessmentField(f) ==> GetField(ClearAssessment(doc, true), true, f) == Default(f)
    ensures doc.Some? && !IsAssessmentField(f) ==> GetField(ClearAssessment(doc, true), true, f) == GetField(doc, true, f)
  {
    NamesDistinct(f, AssessmentAnswers);
    NamesDistinct(f, PriorityProfile);
    NamesDistinct(f, AssessmentComplete);
    NamesDistinct(f, SavedGuide);
    NamesDistinct(f, GuideSummary);
  }

  /** A successful `clearAssessment` keeps every key that is not an assessment field's, as it was. */
  lemma ClearAssessmentKeepsOtherKeys(doc: Document, k: string)
    ensures (forall a: DocField :: IsAssessmentField(a) ==> k != Name(a)) ==>
      (k in Data(ClearAssessment(doc, true)) <==> k in Data(doc))
      && (k in Data(doc) ==> Data(ClearAssessment(doc, true))[k] == Data(doc)[k])
  {
  }
}
