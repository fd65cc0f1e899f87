/** Video variants for A/B tests: the variant record with its rates and activation
    state, its dictionary form, the derived flags of a title variant, and the
    in-memory variant manager. Wall-clock timestamps are integers, and the current
    time is passed in as `now`. */
module Variant {
  import opened Wrappers
  import Seqs
  import Digits

  /** `VariantType`, with its string values. */
  datatype VariantType = Thumbnail | Title | Description | UploadTime | VideoLength | Intro | Outro | Tags | Custom {
    function Value(): string {
      match this
      case Thumbnail => "thumbnail"
      case Title => "title"
      case Description => "description"
      case UploadTime => "upload_time"
      case VideoLength => "video_length"
      case Intro => "intro"
      case Outro => "outro"
      case Tags => "tags"
      case Custom => "custom"
    }
  }

  /** `VariantType(value)`: the member with that value; anything else is the
      `ValueError` case. */
  function VariantTypeFromValue(s: string): (r: Option<VariantType>)
    ensures r.Some? ==> r.value.Value() == s
  {
    if s == "thumbnail" then Some(Thumbnail)
    else if s == "title" then Some(Title)
    else if s == "description" then Some(Description)
    else if s == "upload_time" then Some(UploadTime)
    else if s == "video_length" then Some(VideoLength)
    else if s == "intro" then Some(Intro)
    else if s == "outro" then Some(Outro)
    else if s == "tags" then Some(Tags)
    else if s == "custom" then Some(Custom)
    else None
  }

  lemma VariantTypeRoundTrip(t: VariantType)
    ensures VariantTypeFromValue(t.Value()) == Some(t)
  {
  }

  /** `VideoVariant`. `data` is the free-form dictionary, kept as string pairs. */
  datatype VideoVariant = VideoVariant(
    id: string,
    experimentId: string,
    variantType: VariantType,
    name: string,
    description: string,
    data: map<string, string>,
    videoIds: seq<string>,
    trafficAllocation: real,
    impressions: int,
    clicks: int,
    views: int,
    isControl: bool,
    createdAt: int,
    activatedAt: Option<int>,
    deactivatedAt: Option<int>
  )

  /** A variant with the constructor's defaults for everything not given. */
  function NewVariant(id: string, experimentId: string, variantType: VariantType, name: string,
                      videoIds: seq<string>, now: int): (v: VideoVariant)
    ensures v.id == id && v.experimentId == experimentId && v.variantType == variantType
    ensures v.name == name && v.videoIds == videoIds && v.createdAt == now
    ensures v.trafficAllocation == 50.0 && v.impressions == 0 && v.clicks == 0 && v.views == 0
    ensures !v.isControl && v.activatedAt.None? && v.deactivatedAt.None?
    ensures v.description == "" && v.data == map[]
  {
    VideoVariant(id, experimentId, variantType, name, "", map[], videoIds, 50.0, 0, 0, 0, false, now, None, None)
  }

  // ---------------------------------------------------------------------------
  // Rates and state

  /** `get_ctr`: clicks per impression as a percentage, 0 without impressions. */
  function GetCtr(v: VideoVariant): (r: real)
    ensures v.impressions == 0 ==> r == 0.0
    ensures v.impressions != 0 ==> r * v.impressions as real == v.clicks as real * 100.0
  {
    if v.impressions == 0 then 0.0 else (v.clicks as real / v.impressions as real) * 100.0
  }

  /** `get_view_rate`: views per click as a percentage, 0 without clicks. */
  function GetViewRate(v: VideoVariant): (r: real)
    ensures v.clicks == 0 ==> r == 0.0
    ensures v.clicks != 0 ==> r * v.clicks as real == v.views as real * 100.0
  {
    if v.clicks == 0 then 0.0 else (v.views as real / v.clicks as real) * 100.0
  }

  /** With no more clicks than impressions the click-through rate is a percentage. */
  lemma CtrIsPercentage(v: VideoVariant)
    requires 0 <= v.clicks <= v.impressions
    ensures 0.0 <= GetCtr(v) <= 100.0
  {
    if v.impressions != 0 {
      assert v.clicks as real / v.impressions as real <= 1.0;
    }
  }

  /** `is_active`: activated and not deactivated since. */
  predicate IsActive(v: VideoVariant) {
    v.activatedAt.Some? && v.deactivatedAt.None?
  }

  /** Activation stamps `now` and clears any deactivation. */
  function Activated(v: VideoVariant, now: int): (w: VideoVariant)
    ensures IsActive(w) && w.activatedAt == Some(now)
    ensures w.(activatedAt := v.activatedAt, deactivatedAt := v.deactivatedAt) == v
  {
    v.(activatedAt := Some(now), deactivatedAt := None)
  }

  /** Deactivation stamps `now` and leaves the activation time alone. */
  function Deactivated(v: VideoVariant, now: int): (w: VideoVariant)
    ensures !IsActive(w) && w.deactivatedAt == Some(now)
    ensures w.(deactivatedAt := v.deactivatedAt) == v
  {
    v.(deactivatedAt := Some(now))
  }

  /** Whatever happened before, the last of activate and deactivate decides. */
  lemma LastTransitionDecides(v: VideoVariant, t1: int, t2: int)
    ensures IsActive(Activated(Deactivated(v, t1), t2))
    ensures !IsActive(Deactivated(Activated(v, t1), t2))
    ensures Activated(Activated(v, t1), t2) == Activated(v, t2)
  {
  }

  // ---------------------------------------------------------------------------
  // Dictionary form

  /** A variant dictionary as `from_dict` reads it: the four required keys, and
      `None` for every optional key that is missing. */
  datatype VariantDict = VariantDict(
    id: string,
    experimentId: string,
    variantType: string,
    name: string,
    description: Option<string>,
    data: Option<map<string, string>>,
    videoIds: Option<seq<string>>,
    trafficAllocation: Option<real>,
    impressions: Option<int>,
    clicks: Option<int>,
    views: Option<int>,
    isControl: Option<bool>,
    createdAt: Option<int>,
    activatedAt: Option<int>,
    deactivatedAt: Option<int>
  )

  /** `to_dict`: every field, with the type as its string value. */
  function ToDict(v: VideoVariant): (d: VariantDict)
    ensures d.variantType == v.variantType.Value()
  {
    VariantDict(v.id, v.experimentId, v.variantType.Value(), v.name, Some(v.description), Some(v.data),
                Some(v.videoIds), Some(v.trafficAllocation), Some(v.impressions), Some(v.clicks),
                Some(v.views), Some(v.isControl), Some(v.createdAt), v.activatedAt, v.deactivatedAt)
  }

  /** `from_dict`: an unknown type string is the `ValueError` case; missing optional
      keys take the constructor's defaults, with `now` for `created_at`. */
  function FromDict(d: VariantDict, now: int): (r: Option<VideoVariant>)
    ensures r.Some? <==> VariantTypeFromValue(d.variantType).Some?
    ensures r.Some? ==> r.value.id == d.id && r.value.variantType.Value() == d.variantType
  {
    match VariantTypeFromValue(d.variantType)
    case None => None
    case Some(t) =>
      Some(VideoVariant(d.id, d.experimentId, t, d.name, d.description.GetOr(""), d.data.GetOr(map[]),
                        d.videoIds.GetOr([]), d.trafficAllocation.GetOr(50.0), d.impressions.GetOr(0),
                        d.clicks.GetOr(0), d.views.GetOr(0), d.isControl.GetOr(false),
                        d.createdAt.GetOr(now), d.activatedAt, d.deactivatedAt))
  }

  /** Reading back a written variant gives the same variant, whatever the clock. */
  lemma DictRoundTrip(v: VideoVariant, now: int)
    ensures FromDict(ToDict(v), now) == Some(v)
  {
    VariantTypeRoundTrip(v.variantType);
  }

  /** A dictionary with only the required keys reads as a fresh variant. */
  lemma FromMinimalDict(id: string, experimentId: string, t: VariantType, name: string, now: int)
    ensures FromDict(VariantDict(id, experimentId, t.Value(), name, None, None, None, None, None, None,
                                 None, None, None, None, None), now)
      == Some(NewVariant(id, experimentId, t, name, [], now))
  {
    VariantTypeRoundTrip(t);
  }

  // ---------------------------------------------------------------------------
  // Title variants

  /** `TitleVariant`. */
  datatype TitleVariant = TitleVariant(
    titleText: string,
    characterCount: int,
    hasNumbers: bool,
    hasEmoji: bool,
    hasQuestion: bool,
    sentiment: string
  )

  /** `re.search(r'\d', text)`, on ASCII digits. */
  predicate HasDigit(text: string) {
    exists i :: 0 <= i < |text| && Digits.IsDigit(text[i])
  }

  /** `re.search(r'[^\w\s,.\-!?]', text)`, given the classification of word and
      whitespace characters. */
  predicate HasOtherSymbol(text: string, isWordOrSpace: char -> bool) {
    exists i :: 0 <= i < |text| && !isWordOrSpace(text[i]) && text[i] !in ",.-!?"
  }

  /** `__post_init__`: a zero character count becomes the length of the text; the
      three flags are always recomputed from the text. */
  function PostInit(t: TitleVariant, isWordOrSpace: char -> bool): (r: TitleVariant)
    ensures r.titleText == t.titleText && r.sentiment == t.sentiment
    ensures t.characterCount == 0 ==> r.characterCount == |t.titleText|
    ensures t.characterCount != 0 ==> r.characterCount == t.characterCount
    ensures r.hasNumbers <==> exists i :: 0 <= i < |t.titleText| && '0' <= t.titleText[i] <= '9'
    ensures r.hasQuestion <==> '?' in t.titleText
    ensures r.hasEmoji <==> HasOtherSymbol(t.titleText, isWordOrSpace)
  {
    var count := if t.characterCount == 0 then |t.titleText| else t.characterCount;
    t.(characterCount := count,
       hasNumbers := HasDigit(t.titleText),
       hasEmoji := HasOtherSymbol(t.titleText, isWordOrSpace),
       hasQuestion := '?' in t.titleText)
  }

  /** Running the derivation again changes nothing, and the flags given to the
      constructor never matter. */
  lemma PostInitIdempotent(t: TitleVariant, isWordOrSpace: char -> bool, numbers: bool, emoji: bool, question: bool)
    ensures PostInit(PostInit(t, isWordOrSpace), isWordOrSpace) == PostInit(t, isWordOrSpace)
    ensures PostInit(t.(hasNumbers := numbers, hasEmoji := emoji, hasQuestion := question), isWordOrSpace)
         == PostInit(t, isWordOrSpace)
  {
  }

  /** "Top 10 Tips?" has numbers and a question mark and keeps its 12 characters. */
  lemma TitleExample(isWordOrSpace: char -> bool)
    ensures var r := PostInit(TitleVariant("Top 10 Tips?", 0, false, false, false, "neutral"), isWordOrSpace);
      r.characterCount == 12 && r.hasNumbers && r.hasQuestion
  {
    var r := PostInit(TitleVariant("Top 10 Tips?", 0, false, false, false, "neutral"), isWordOrSpace);
    assert "Top 10 Tips?"[4] == '1';
    assert "Top 10 Tips?"[11] == '?';
  }

  // ---------------------------------------------------------------------------
  // The variant manager

  /** The `variants` dictionary, with its keys in insertion order. */
  datatype VariantManager = VariantManager(order: seq<string>, variants: map<string, VideoVariant>)

  /** The text after the last underscore (all of it when there is none). */
  function LastSegment(s: string): (r: string)
    ensures '_' !in r
    decreases |s|
  {
    if |s| == 0 then ""
    else if s[|s| - 1] == '_' then ""
    else LastSegment(s[..|s| - 1]) + [s[|s| - 1]]
  }

  /** `f"{experiment_id}_{variant_type.value}_{count}"`. */
  function VariantId(experimentId: string, t: VariantType, count: nat): string {
    experimentId + "_" + t.Value() + "_" + Digits.NatToString(count)
  }

  lemma {:induction false} LastSegmentAfterUnderscore(p: string, tail: string)
    requires '_' !in tail
    ensures LastSegment(p + "_" + tail) == tail
    decreases |tail|
  {
    var s := p + "_" + tail;
    if |tail| == 0 {
      assert s[|s| - 1] == '_';
    } else {
      assert s[..|s| - 1] == p + "_" + tail[..|tail| - 1];
      LastSegmentAfterUnderscore(p, tail[..|tail| - 1]);
      assert tail == tail[..|tail| - 1] + [tail[|tail| - 1]];
    }
  }

  /** The count is recoverable from an id, so ids built from different counts differ. */
  lemma VariantIdCount(experimentId: string, t: VariantType, count: nat)
    ensures LastSegment(VariantId(experimentId, t, count)) == Digits.NatToString(count)
  {
    var digits := Digits.NatToString(count);
    assert forall i :: 0 <= i < |digits| ==> digits[i] != '_';
    LastSegmentAfterUnderscore(experimentId + "_" + t.Value(), digits);
  }

  /** Every key is listed once in order, and the `i`-th key was made with count `i`,
      which holds of every manager built by `create_variant` alone. */
  ghost predicate Valid(m: VariantManager) {
    && Seqs.Distinct(m.order)
    && (forall k :: k in m.variants <==> k in m.order)
    && (forall i :: 0 <= i < |m.order| ==> LastSegment(m.order[i]) == Digits.NatToString(i))
  }

  function EmptyManager(): (m: VariantManager)
    ensures Valid(m) && |m.order| == 0
  {
    VariantManager([], map[])
  }

  /** `create_variant`: builds the variant under the id `experiment_{type}_{count}`,
      where count is the number of stored variants, and stores it. */
  function CreateVariant(m: VariantManager, experimentId: string, t: VariantType, name: string,
                         videoIds: seq<string>, now: int): (r: (VariantManager, VideoVariant))
    ensures r.1 == NewVariant(VariantId(experimentId, t, |m.order|), experimentId, t, name, videoIds, now)
    ensures r.0.variants == m.variants[r.1.id := r.1]
  {
    var v := NewVariant(VariantId(experimentId, t, |m.order|), experimentId, t, name, videoIds, now);
    (Store(m, v), v)
  }

  /** `self.variants[variant.id] = variant`: the id joins the insertion order the
      first time it is stored. */
  function Store(m: VariantManager, v: VideoVariant): (r: VariantManager)
    ensures r.variants == m.variants[v.id := v]
    ensures v.id in m.variants ==> r.order == m.order
    ensures v.id !in m.variants ==> r.order == m.order + [v.id]
  {
    var order := if v.id in m.variants then m.order else m.order + [v.id];
    VariantManager(order, m.variants[v.id := v])
  }

  /** In a valid manager no stored id was made with the current count. */
  lemma VariantIdFresh(m: VariantManager, experimentId: string, t: VariantType)
    requires Valid(m)
    ensures VariantId(experimentId, t, |m.order|) !in m.variants
  {
    var id := VariantId(experimentId, t, |m.order|);
    VariantIdCount(experimentId, t, |m.order|);
    if id in m.variants {
      var i :| 0 <= i < |m.order| && m.order[i] == id;
      Digits.NatToStringInjective(i, |m.order|);
    }
  }

  /** Storing a variant under a new id that carries the current count keeps a manager
      valid, adds exactly that key, and leaves the other entries alone. */
  lemma StoreFreshKeepsValid(m: VariantManager, v: VideoVariant)
    requires Valid(m) && v.id !in m.variants
    requires LastSegment(v.id) == Digits.NatToString(|m.order|)
    ensures Valid(Store(m, v))
    ensures Store(m, v).variants.Keys == m.variants.Keys + {v.id}
    ensures forall k :: k in m.variants ==> Store(m, v).variants[k] == m.variants[k]
    ensures |Store(m, v).order| == |m.order| + 1
  {
    Seqs.DistinctSnoc(m.order, v.id);
    KeysSnoc(m.variants, m.order, v);
    SegmentsSnoc(m.order, v.id);
  }

  /** Adding a key to a map and to the list of its keys keeps the two in step. */
  lemma KeysSnoc(vs: map<string, VideoVariant>, order: seq<string>, v: VideoVariant)
    requires forall k :: k in vs <==> k in order
    ensures forall k :: k in vs[v.id := v] <==> k in order + [v.id]
  {
    forall k
      ensures k in vs[v.id := v] <==> k in order + [v.id]
    {
      assert k in order + [v.id] <==> k in order || k == v.id;
    }
  }

  /** Appending an id that ends in the current length keeps every id ending in its
      position. */
  lemma SegmentsSnoc(order: seq<string>, id: string)
    requires forall i :: 0 <= i < |order| ==> LastSegment(order[i]) == Digits.NatToString(i)
    requires LastSegment(id) == Digits.NatToString(|order|)
    ensures forall i :: 0 <= i < |order + [id]| ==> LastSegment((order + [id])[i]) == Digits.NatToString(i)
  {
    forall i | 0 <= i < |order + [id]|
      ensures LastSegment((order + [id])[i]) == Digits.NatToString(i)
    {
      if i < |order| {
        assert (order + [id])[i] == order[i];
      }
    }
  }

  /** In a valid manager the new id is fresh: nothing is overwritten and exactly one
      variant is added. */
  lemma CreateVariantFresh(m: VariantManager, experimentId: string, t: VariantType, name: string,
                           videoIds: seq<string>, now: int)
    requires Valid(m)
    ensures var r := CreateVariant(m, experimentId, t, name, videoIds, now);
      && r.1.id !in m.variants
      && r.0.variants.Keys == m.variants.Keys + {r.1.id}
      && (forall k :: k in m.variants ==> r.0.variants[k] == m.variants[k])
      && |r.0.order| == |m.order| + 1
  {
    VariantIdFresh(m, experimentId, t);
  }

  /** Creating a variant keeps the manager valid, so the next id is fresh too. */
  lemma CreateVariantKeepsValid(m: VariantManager, experimentId: string, t: VariantType, name: string,
                                videoIds: seq<string>, now: int)
    requires Valid(m)
    ensures Valid(CreateVariant(m, experimentId, t, name, videoIds, now).0)
  {
    var v := CreateVariant(m, experimentId, t, name, videoIds, now).1;
    VariantIdFresh(m, experimentId, t);
    VariantIdCount(experimentId, t, |m.order|);
    StoreFreshKeepsValid(m, v);
  }

  /** `self.variants.values()`, in insertion order. */
  function Values(m: VariantManager): seq<VideoVariant> {
    Seqs.ValuesInOrder(m.order, m.variants)
  }

  function OfExperiment(experimentId: string): VideoVariant -> bool {
    (v: VideoVariant) => v.experimentId == experimentId
  }

  /** `get_variants_for_experiment`: the stored variants of that experiment, in
      insertion order, one entry per stored id. */
  function GetVariantsForExperiment(m: VariantManager, experimentId: string): (r: seq<VideoVariant>)
    ensures forall v :: v in r <==> v in Values(m) && v.experimentId == experimentId
    ensures Valid(m) ==> |r| == |Seqs.KeysWhere(m.variants, OfExperiment(experimentId))|
  {
    FilterCountsStored(m, OfExperiment(experimentId));
    Seqs.Filter(Values(m), OfExperiment(experimentId))
  }

  /** `get_active_variants`: the active ones among them, one entry per stored id. */
  function GetActiveVariants(m: VariantManager, experimentId: string): (r: seq<VideoVariant>)
    ensures forall v :: v in r <==> v in Values(m) && v.experimentId == experimentId && IsActive(v)
    ensures |r| <= |GetVariantsForExperiment(m, experimentId)|
    ensures Valid(m) ==> |r| == |Seqs.KeysWhere(m.variants, Seqs.Both(OfExperiment(experimentId), IsActive))|
  {
    Seqs.FilterFilter(Values(m), OfExperiment(experimentId), IsActive);
    FilterCountsStored(m, Seqs.Both(OfExperiment(experimentId), IsActive));
    Seqs.Filter(GetVariantsForExperiment(m, experimentId), IsActive)
  }

  /** Under `Valid` the order lists each stored id once, so a comprehension over
      `values()` has one element per stored id whose variant passes. */
  lemma FilterCountsStored(m: VariantManager, p: VideoVariant -> bool)
    ensures Valid(m) ==> |Seqs.Filter(Values(m), p)| == |Seqs.KeysWhere(m.variants, p)|
  {
    if Valid(m) {
      Seqs.CountHeldKeys(m.order, m.variants, p);
    }
  }

  /** Under `Valid`, every stored variant of the experiment is listed. */
  lemma VariantsForExperimentComplete(m: VariantManager, experimentId: string, k: string)
    requires Valid(m) && k in m.variants && m.variants[k].experimentId == experimentId
    ensures m.variants[k] in GetVariantsForExperiment(m, experimentId)
  {
    Seqs.ValuesInOrderComplete(m.order, m.variants, k);
  }

  /** `activate_variant`: an unknown id changes nothing; otherwise that variant, and
      only it, becomes active. */
  function ActivateVariant(m: VariantManager, id: string, now: int): (r: VariantManager)
    ensures id !in m.variants ==> r == m
    ensures r.order == m.order && r.variants.Keys == m.variants.Keys
    ensures id in m.variants ==> IsActive(r.variants[id]) && r.variants[id] == Activated(m.variants[id], now)
    ensures forall k :: k in m.variants && k != id ==> r.variants[k] == m.variants[k]
  {
    if id in m.variants then m.(variants := m.variants[id := Activated(m.variants[id], now)]) else m
  }

  /** `deactivate_variant`: an unknown id changes nothing; otherwise that variant, and
      only it, becomes inactive. */
  function DeactivateVariant(m: VariantManager, id: string, now: int): (r: VariantManager)
    ensures id !in m.variants ==> r == m
    ensures r.order == m.order && r.variants.Keys == m.variants.Keys
    ensures id in m.variants ==> !IsActive(r.variants[id]) && r.variants[id] == Deactivated(m.variants[id], now)
    ensures forall k :: k in m.variants && k != id ==> r.variants[k] == m.variants[k]
  {
    if id in m.variants then m.(variants := m.variants[id := Deactivated(m.variants[id], now)]) else m
  }

  /** Activation keeps the manager valid, and an activated variant is listed among
      the active variants of its experiment. */
  lemma ActivatedIsListed(m: VariantManager, id: string, now: int)
    requires Valid(m) && id in m.variants
    ensures Valid(ActivateVariant(m, id, now))
    ensures var r := ActivateVariant(m, id, now);
      r.variants[id] in GetActiveVariants(r, m.variants[id].experimentId)
  {
    var r := ActivateVariant(m, id, now);
    Seqs.ValuesInOrderComplete(r.order, r.variants, id);
  }

  /** A deactivated variant is never listed among the active ones. */
  lemma DeactivatedIsNotListed(m: VariantManager, id: string, now: int, experimentId: string)
    requires id in m.variants
    ensures var r := DeactivateVariant(m, id, now);
      r.variants[id] !in GetActiveVariants(r, experimentId)
  {
  }
}
