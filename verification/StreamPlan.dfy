/** The stream plan: what the encode promises for every stream of the source, and
    the check of that promise before the encode. */
module StreamPlan {
  import opened Options

  type Codec = nat
  type Language = nat

  datatype Kind = Video | Audio | Subtitle | Attachment | Data | Unidentified

  datatype Stream = Stream(index: int, kind: Kind, codec: Codec, language: Language, picture: bool, forced: bool)

  datatype Planned = Planned(
    source: int, ordinal: nat, kind: Kind, codec: Codec, language: Language, picture: bool, forced: bool)

  datatype Reason = UnmuxableSubtitle | DataStream | UnknownType

  datatype Dropped = Dropped(source: int, reason: Reason)

  datatype Plan = Plan(kept: seq<Planned>, dropped: seq<Dropped>)

  // ---- The plan ----

  function Filter<T>(s: seq<T>, keep: T -> bool): seq<T> {
    if s == [] then [] else if keep(s[0]) then [s[0]] + Filter(s[1..], keep) else Filter(s[1..], keep)
  }

  predicate IsVideo(s: Stream) { s.kind.Video? && !s.picture }

  /** The first video stream that is not an attached picture. */
  function PrimaryIndex(inventory: seq<Stream>): Option<int> {
    if inventory == [] then None
    else if IsVideo(inventory[0]) then Some(inventory[0].index)
    else PrimaryIndex(inventory[1..])
  }

  function FirstWith(inventory: seq<Stream>, index: Option<int>): Option<Stream> {
    if inventory == [] then None
    else if Some(inventory[0].index) == index then Some(inventory[0])
    else FirstWith(inventory[1..], index)
  }

  /** Subtitles are numbered among themselves; numbers out of range are ignored. */
  function Unmuxable(inventory: seq<Stream>, numbers: seq<int>): set<int> {
    var subtitles := Filter(inventory, (s: Stream) => s.kind.Subtitle?);
    set n | n in numbers && 0 <= n < |subtitles| :: subtitles[n].index
  }

  function Omission(s: Stream, unmuxable: set<int>): Option<Reason> {
    if s.index in unmuxable then Some(UnmuxableSubtitle)
    else if s.kind.Data? then Some(DataStream)
    else if s.kind.Unidentified? then Some(UnknownType)
    else None
  }

  function Carries(primary: Option<int>, unmuxable: set<int>): Stream -> bool {
    (s: Stream) => Some(s.index) != primary && Omission(s, unmuxable).None?
  }

  function Omitted(inventory: seq<Stream>, primary: Option<int>, unmuxable: set<int>): seq<Dropped> {
    if inventory == [] then []
    else
      var s := inventory[0];
      var reason := Omission(s, unmuxable);
      (if Some(s.index) != primary && reason.Some? then [Dropped(s.index, reason.value)] else []) +
      Omitted(inventory[1..], primary, unmuxable)
  }

  function Carried(inventory: seq<Stream>, unmuxable: set<int>): seq<Stream> {
    var primary := PrimaryIndex(inventory);
    var first := FirstWith(inventory, primary);
    (if first.Some? then [first.value] else []) + Filter(inventory, Carries(primary, unmuxable))
  }

  function Place(s: Stream, ordinal: nat, primary: Option<int>, target: Codec): Planned {
    var codec := if Some(s.index) == primary then target else s.codec;
    Planned(s.index, ordinal, s.kind, codec, s.language, s.picture, s.forced)
  }

  function PlanStreams(inventory: seq<Stream>, target: Codec, dropSubtitles: seq<int>): Plan {
    var primary := PrimaryIndex(inventory);
    var unmuxable := Unmuxable(inventory, dropSubtitles);
    var carried := Carried(inventory, unmuxable);
    Plan(seq(|carried|, i requires 0 <= i < |carried| => Place(carried[i], i, primary, target)),
         Omitted(inventory, primary, unmuxable))
  }

  function Indexes(inventory: seq<Stream>): (r: seq<int>)
    ensures |r| == |inventory| && forall i | 0 <= i < |r| :: r[i] == inventory[i].index
  {
    seq(|inventory|, i requires 0 <= i < |inventory| => inventory[i].index)
  }

  function DroppedIndexes(dropped: seq<Dropped>): seq<int> {
    seq(|dropped|, i requires 0 <= i < |dropped| => dropped[i].source)
  }

  /** Every source index the plan speaks for. */
  function Accounted(plan: Plan): seq<int> {
    seq(|plan.kept|, i requires 0 <= i < |plan.kept| => plan.kept[i].source) + DroppedIndexes(plan.dropped)
  }

  datatype PlanVerdict = Accepted | LeavesBehind | Malformed

  /** The check before the encode. */
  ghost function CheckPlan(inventory: seq<Stream>, plan: Plan): PlanVerdict {
    var accounted := multiset(Accounted(plan));
    if exists s :: s in inventory && accounted[s.index] == 0 then LeavesBehind
    else if exists i :: i in accounted && (accounted[i] > 1 || i !in Indexes(inventory)) then Malformed
    else Accepted
  }

  /** How often an index occurs. */
  function Count(inventory: seq<Stream>, x: int): nat {
    multiset(Indexes(inventory))[x]
  }

  lemma CountStep(inventory: seq<Stream>, x: int)
    requires inventory != []
    ensures Count(inventory, x) == (if inventory[0].index == x then 1 else 0) + Count(inventory[1..], x)
  {
    assert Indexes(inventory) == [inventory[0].index] + Indexes(inventory[1..]);
  }

  lemma DroppedStep(dropped: seq<Dropped>, x: int)
    requires dropped != []
    ensures multiset(DroppedIndexes(dropped))[x] ==
            (if dropped[0].source == x then 1 else 0) + multiset(DroppedIndexes(dropped[1..]))[x]
  {
    assert DroppedIndexes(dropped) == [dropped[0].source] + DroppedIndexes(dropped[1..]);
  }

  /** Apart from the primary, carried and dropped streams split the inventory. */
  lemma {:induction false} SplitCounts(inventory: seq<Stream>, primary: Option<int>, unmuxable: set<int>, x: int)
    ensures Count(Filter(inventory, Carries(primary, unmuxable)), x) +
            multiset(DroppedIndexes(Omitted(inventory, primary, unmuxable)))[x] ==
            if Some(x) == primary then 0 else Count(inventory, x)
  {
    if inventory != [] {
      var rest := inventory[1..];
      SplitCounts(rest, primary, unmuxable, x);
      CountStep(inventory, x);
      var carried, omitted := Filter(inventory, Carries(primary, unmuxable)), Omitted(inventory, primary, unmuxable);
      if Carries(primary, unmuxable)(inventory[0]) {
        CountStep(carried, x);
        assert carried[1..] == Filter(rest, Carries(primary, unmuxable));
        assert omitted == Omitted(rest, primary, unmuxable);
      } else if Some(inventory[0].index) != primary {
        DroppedStep(omitted, x);
        assert omitted[1..] == Omitted(rest, primary, unmuxable);
      } else {
        assert omitted == Omitted(rest, primary, unmuxable);
      }
    }
  }

  lemma {:induction false} PrimaryIsThere(inventory: seq<Stream>)
    ensures var primary := PrimaryIndex(inventory); var first := FirstWith(inventory, primary);
            && first.Some? == primary.Some?
            && (primary.Some? ==> first.value in inventory && Some(first.value.index) == primary)
  {
    if inventory != [] && !IsVideo(inventory[0]) {
      PrimaryIsThere(inventory[1..]);
      if PrimaryIndex(inventory).Some? { FoundLater(inventory, PrimaryIndex(inventory)); }
      else { NoneWithout(inventory); }
    }
  }

  lemma FoundLater(inventory: seq<Stream>, index: Option<int>)
    requires inventory != [] && FirstWith(inventory[1..], index).Some?
    requires var found := FirstWith(inventory[1..], index).value; found in inventory[1..] && Some(found.index) == index
    ensures var first := FirstWith(inventory, index);
            first.Some? && first.value in inventory && Some(first.value.index) == index
  {
  }

  lemma {:induction false} NoneWithout(inventory: seq<Stream>)
    ensures FirstWith(inventory, None).None?
  {
    if inventory != [] { NoneWithout(inventory[1..]); }
  }

  lemma CarriedCounts(inventory: seq<Stream>, unmuxable: set<int>, x: int)
    ensures var primary := PrimaryIndex(inventory);
            Count(Carried(inventory, unmuxable), x) ==
            (if Some(x) == primary then 1 else 0) + Count(Filter(inventory, Carries(primary, unmuxable)), x)
  {
    var carried, rest := Carried(inventory, unmuxable), Filter(inventory, Carries(PrimaryIndex(inventory), unmuxable));
    PrimaryIsThere(inventory);
    if PrimaryIndex(inventory).Some? {
      CountStep(carried, x);
      assert carried[1..] == rest;
    } else {
      assert carried == rest;
    }
  }

  lemma AccountedIs(inventory: seq<Stream>, target: Codec, dropSubtitles: seq<int>)
    ensures var unmuxable := Unmuxable(inventory, dropSubtitles);
            Accounted(PlanStreams(inventory, target, dropSubtitles)) ==
            Indexes(Carried(inventory, unmuxable)) +
            DroppedIndexes(Omitted(inventory, PrimaryIndex(inventory), unmuxable))
  {
  }

  /** The plan speaks for the primary index once and for every other index as
      often as the inventory has it. */
  lemma AccountedCounts(inventory: seq<Stream>, target: Codec, dropSubtitles: seq<int>, x: int)
    ensures multiset(Accounted(PlanStreams(inventory, target, dropSubtitles)))[x] == PlannedCount(inventory, x)
  {
    var unmuxable := Unmuxable(inventory, dropSubtitles);
    SplitCounts(inventory, PrimaryIndex(inventory), unmuxable, x);
    CarriedCounts(inventory, unmuxable, x);
    AccountedIs(inventory, target, dropSubtitles);
  }

  function PlannedCount(inventory: seq<Stream>, x: int): nat {
    if Some(x) == PrimaryIndex(inventory) then 1 else Count(inventory, x)
  }

  predicate DistinctIndexes(inventory: seq<Stream>) {
    forall i, j | 0 <= i < j < |inventory| :: inventory[i].index != inventory[j].index
  }

  lemma {:induction false} CountsAreOccurrences(inventory: seq<Stream>, x: int)
    ensures Count(inventory, x) > 0 <==> exists i :: 0 <= i < |inventory| && inventory[i].index == x
    ensures Count(inventory, x) > 1 <==>
            exists i, j :: 0 <= i < j < |inventory| && inventory[i].index == x && inventory[j].index == x
  {
    if inventory != [] {
      var rest := inventory[1..];
      CountStep(inventory, x);
      CountsAreOccurrences(rest, x);
      if i :| 0 <= i < |rest| && rest[i].index == x { assert inventory[i + 1].index == x; }
      if i, j :| 0 <= i < j < |rest| && rest[i].index == x && rest[j].index == x {
        assert inventory[i + 1].index == x && inventory[j + 1].index == x;
      }
      if i :| 0 < i < |inventory| && inventory[i].index == x { assert rest[i - 1].index == x; }
      if i, j :| 0 < i < j < |inventory| && inventory[i].index == x && inventory[j].index == x {
        assert rest[i - 1].index == x && rest[j - 1].index == x;
      }
    }
  }

  /** For an inventory with distinct indexes the plan names each stream exactly
      once, as kept or as dropped. */
  lemma PlanIsComplete(inventory: seq<Stream>, target: Codec, dropSubtitles: seq<int>)
    requires DistinctIndexes(inventory)
    ensures multiset(Accounted(PlanStreams(inventory, target, dropSubtitles))) == multiset(Indexes(inventory))
  {
    var plan := PlanStreams(inventory, target, dropSubtitles);
    PrimaryIsThere(inventory);
    forall x ensures multiset(Accounted(plan))[x] == multiset(Indexes(inventory))[x] {
      AccountedCounts(inventory, target, dropSubtitles, x);
      CountsAreOccurrences(inventory, x);
    }
  }

  /** Two streams share an index, and it is not the primary's. */
  ghost predicate Confusing(inventory: seq<Stream>, i: int, j: int) {
    && 0 <= i < j < |inventory| && inventory[i].index == inventory[j].index
    && Some(inventory[i].index) != PrimaryIndex(inventory)
  }

  lemma NoneLeftBehind(inventory: seq<Stream>, x: int)
    requires x in Indexes(inventory)
    ensures PlannedCount(inventory, x) > 0
  {
  }

  lemma OverCounted(inventory: seq<Stream>, x: int)
    ensures PlannedCount(inventory, x) > 0 ==> x in Indexes(inventory)
    ensures PlannedCount(inventory, x) > 1 <==> exists i, j :: Confusing(inventory, i, j) && inventory[i].index == x
  {
    PrimaryIsThere(inventory);
    CountsAreOccurrences(inventory, x);
    if PlannedCount(inventory, x) > 1 {
      var i, j :| 0 <= i < j < |inventory| && inventory[i].index == x && inventory[j].index == x;
      assert Confusing(inventory, i, j);
    }
  }

  /** The check before the encode never finds a stream left behind, and refuses a
      plan exactly when a non-primary index occurs twice. */
  lemma PlanPassesTheCheck(inventory: seq<Stream>, target: Codec, dropSubtitles: seq<int>)
    ensures var verdict := CheckPlan(inventory, PlanStreams(inventory, target, dropSubtitles));
            && !verdict.LeavesBehind?
            && (verdict.Accepted? <==> !exists i, j :: Confusing(inventory, i, j))
  {
    var plan := PlanStreams(inventory, target, dropSubtitles);
    forall x ensures multiset(Accounted(plan))[x] == PlannedCount(inventory, x) {
      AccountedCounts(inventory, target, dropSubtitles, x);
    }
    CheckByCounts(inventory, plan);
  }

  lemma CheckByCounts(inventory: seq<Stream>, plan: Plan)
    requires forall x :: multiset(Accounted(plan))[x] == PlannedCount(inventory, x)
    ensures !CheckPlan(inventory, plan).LeavesBehind?
    ensures CheckPlan(inventory, plan).Accepted? <==> !exists i, j :: Confusing(inventory, i, j)
  {
    var accounted := multiset(Accounted(plan));
    AllAccounted(inventory, accounted);
    if i, j :| Confusing(inventory, i, j) {
      OverCounted(inventory, inventory[i].index);
      assert accounted[inventory[i].index] > 1;
    }
    forall x | x in accounted && (accounted[x] > 1 || x !in Indexes(inventory))
      ensures exists i, j :: Confusing(inventory, i, j)
    {
      OverCounted(inventory, x);
    }
  }

  lemma AllAccounted(inventory: seq<Stream>, accounted: multiset<int>)
    requires forall x :: accounted[x] == PlannedCount(inventory, x)
    ensures forall s | s in inventory :: accounted[s.index] > 0
  {
    forall s | s in inventory ensures accounted[s.index] > 0 {
      var i :| 0 <= i < |inventory| && inventory[i] == s;
      assert Indexes(inventory)[i] == s.index;
      NoneLeftBehind(inventory, s.index);
    }
  }

  // ---- Order ----

  lemma {:induction false} FilterKeepsOrder<T>(s: seq<T>, keep: T -> bool, i: nat, j: nat) returns (a: nat, b: nat)
    requires i < j < |Filter(s, keep)|
    ensures a < b < |s| && s[a] == Filter(s, keep)[i] && s[b] == Filter(s, keep)[j]
  {
    if !keep(s[0]) {
      a, b := FilterKeepsOrder(s[1..], keep, i, j);
      a, b := a + 1, b + 1;
    } else if i > 0 {
      a, b := FilterKeepsOrder(s[1..], keep, i - 1, j - 1);
      a, b := a + 1, b + 1;
    } else {
      b := FilterTakes(s[1..], keep, j - 1);
      a, b := 0, b + 1;
    }
  }

  lemma {:induction false} FilterTakes<T>(s: seq<T>, keep: T -> bool, i: nat) returns (a: nat)
    requires i < |Filter(s, keep)|
    ensures a < |s| && s[a] == Filter(s, keep)[i] && keep(s[a])
  {
    if keep(s[0]) && i == 0 {
      a := 0;
    } else {
      a := FilterTakes(s[1..], keep, if keep(s[0]) then i - 1 else i);
      a := a + 1;
    }
  }

  /** Ordinals are consecutive, and the primary video, if there is one, is at
      ordinal 0: the first video stream of the source that is not a picture, with
      the target codec. */
  lemma PlanLead(inventory: seq<Stream>, target: Codec, dropSubtitles: seq<int>)
    ensures var plan := PlanStreams(inventory, target, dropSubtitles);
            && (forall k | 0 <= k < |plan.kept| :: plan.kept[k].ordinal == k)
            && (PrimaryIndex(inventory).None? <==> forall s | s in inventory :: !IsVideo(s))
            && (PrimaryIndex(inventory).Some? ==>
                  && plan.kept != [] && Some(plan.kept[0].source) == PrimaryIndex(inventory)
                  && plan.kept[0].codec == target)
  {
    PrimaryIsThere(inventory);
    NoVideoNoPrimary(inventory);
  }

  lemma {:induction false} NoVideoNoPrimary(inventory: seq<Stream>)
    ensures PrimaryIndex(inventory).None? <==> forall s | s in inventory :: !IsVideo(s)
  {
    if inventory != [] { NoVideoNoPrimary(inventory[1..]); }
  }

  /** The stream as it is, at this place of the output. */
  predicate IsCopy(p: Planned, s: Stream, ordinal: nat) {
    p == Planned(s.index, ordinal, s.kind, s.codec, s.language, s.picture, s.forced)
  }

  /** Everything but the primary is a copy, in source order. */
  lemma PlanOrder(inventory: seq<Stream>, target: Codec, dropSubtitles: seq<int>, i: nat, j: nat)
      returns (a: nat, b: nat)
    requires var plan := PlanStreams(inventory, target, dropSubtitles);
             (if PrimaryIndex(inventory).Some? then 1 else 0) <= i < j < |plan.kept|
    ensures var plan := PlanStreams(inventory, target, dropSubtitles);
            && a < b < |inventory|
            && IsCopy(plan.kept[i], inventory[a], i) && IsCopy(plan.kept[j], inventory[b], j)
  {
    var primary, unmuxable := PrimaryIndex(inventory), Unmuxable(inventory, dropSubtitles);
    PrimaryIsThere(inventory);
    var lead := if primary.Some? then 1 else 0;
    assert Carried(inventory, unmuxable)[lead..] == Filter(inventory, Carries(primary, unmuxable));
    a, b := FilterKeepsOrder(inventory, Carries(primary, unmuxable), i - lead, j - lead);
    var k := FilterTakes(inventory, Carries(primary, unmuxable), i - lead);
    var l := FilterTakes(inventory, Carries(primary, unmuxable), j - lead);
  }

  // ---- What is dropped, and why ----

  /** How many subtitles come before position `i`. */
  function SubtitleNumber(inventory: seq<Stream>, i: nat): nat
    requires i <= |inventory|
  {
    if i == 0 then 0 else SubtitleNumber(inventory, i - 1) + if inventory[i - 1].kind.Subtitle? then 1 else 0
  }

  lemma {:induction false} NumberFromTheRest(inventory: seq<Stream>, i: nat)
    requires 0 < i <= |inventory|
    ensures SubtitleNumber(inventory, i) ==
            (if inventory[0].kind.Subtitle? then 1 else 0) + SubtitleNumber(inventory[1..], i - 1)
  {
    if i > 1 {
      NumberFromTheRest(inventory, i - 1);
      assert inventory[1..][i - 2] == inventory[i - 1];
    } else {
      assert SubtitleNumber(inventory, 0) == 0 && SubtitleNumber(inventory[1..], 0) == 0;
    }
  }

  function Subtitles(inventory: seq<Stream>): seq<Stream> {
    Filter(inventory, (s: Stream) => s.kind.Subtitle?)
  }

  /** Every numbered subtitle comes from one position of the source. */
  lemma {:induction false} NumberedSubtitle(inventory: seq<Stream>, n: nat) returns (i: nat)
    requires n < |Subtitles(inventory)|
    ensures i < |inventory| && inventory[i] == Subtitles(inventory)[n]
    ensures inventory[i].kind.Subtitle? && SubtitleNumber(inventory, i) == n
  {
    if inventory[0].kind.Subtitle? && n == 0 {
      i := 0;
    } else {
      i := NumberedSubtitle(inventory[1..], if inventory[0].kind.Subtitle? then n - 1 else n);
      NumberFromTheRest(inventory, i + 1);
      i := i + 1;
    }
  }

  lemma {:induction false} SubtitleAtItsNumber(inventory: seq<Stream>, i: nat)
    requires i < |inventory| && inventory[i].kind.Subtitle?
    ensures SubtitleNumber(inventory, i) < |Subtitles(inventory)|
    ensures Subtitles(inventory)[SubtitleNumber(inventory, i)] == inventory[i]
  {
    if i > 0 {
      NumberFromTheRest(inventory, i);
      SubtitleAtItsNumber(inventory[1..], i - 1);
    }
  }

  /** The index of a stream is among the unmuxable exactly when it is a subtitle
      whose number was given. */
  lemma UnmuxableByNumber(inventory: seq<Stream>, numbers: seq<int>, i: nat)
    requires DistinctIndexes(inventory) && i < |inventory|
    ensures inventory[i].index in Unmuxable(inventory, numbers) <==>
            inventory[i].kind.Subtitle? && SubtitleNumber(inventory, i) in numbers
  {
    assert Unmuxable(inventory, numbers) ==
           set n | n in numbers && 0 <= n < |Subtitles(inventory)| :: Subtitles(inventory)[n].index;
    if inventory[i].index in Unmuxable(inventory, numbers) {
      var n :| n in numbers && 0 <= n < |Subtitles(inventory)| && Subtitles(inventory)[n].index == inventory[i].index;
      var k := NumberedSubtitle(inventory, n);
      assert k == i;
    }
    if inventory[i].kind.Subtitle? && SubtitleNumber(inventory, i) in numbers { SubtitleAtItsNumber(inventory, i); }
  }

  lemma {:induction false} OmittedExactly(inventory: seq<Stream>, primary: Option<int>, unmuxable: set<int>, d: Dropped)
    ensures d in Omitted(inventory, primary, unmuxable) <==>
            exists s :: s in inventory && Some(s.index) != primary && Omission(s, unmuxable) == Some(d.reason) &&
                        d.source == s.index
  {
    if inventory != [] {
      OmittedExactly(inventory[1..], primary, unmuxable, d);
      assert forall s :: s in inventory <==> s == inventory[0] || s in inventory[1..];
    }
  }

  lemma {:induction false} FilterHas<T>(s: seq<T>, keep: T -> bool, i: nat) returns (k: nat)
    requires i < |s| && keep(s[i])
    ensures k < |Filter(s, keep)| && Filter(s, keep)[k] == s[i]
  {
    if i == 0 {
      k := 0;
    } else {
      k := FilterHas(s[1..], keep, i - 1);
      k := if keep(s[0]) then k + 1 else k;
    }
  }

  /** The first video stream that is not an attached picture. */
  predicate IsFirstVideo(inventory: seq<Stream>, i: nat) {
    && i < |inventory| && inventory[i].kind.Video? && !inventory[i].picture
    && forall k | 0 <= k < i :: !(inventory[k].kind.Video? && !inventory[k].picture)
  }

  lemma {:induction false} FirstVideoIsPrimary(inventory: seq<Stream>, i: nat)
    requires DistinctIndexes(inventory) && i < |inventory|
    ensures IsFirstVideo(inventory, i) <==> PrimaryIndex(inventory) == Some(inventory[i].index)
  {
    if IsVideo(inventory[0]) {
      assert i > 0 ==> inventory[0].index != inventory[i].index;
    } else if i > 0 {
      FirstVideoIsPrimary(inventory[1..], i - 1);
      assert forall k | 0 < k < i :: inventory[k] == inventory[1..][k - 1];
      assert forall k | 0 <= k < i - 1 :: inventory[1..][k] == inventory[k + 1];
    } else {
      PrimaryIsLater(inventory);
    }
  }

  lemma PrimaryIsLater(inventory: seq<Stream>)
    requires DistinctIndexes(inventory) && inventory != [] && !IsVideo(inventory[0])
    ensures PrimaryIndex(inventory) != Some(inventory[0].index)
  {
    PrimaryIsThere(inventory[1..]);
  }

  /** The plan, stream by stream. The first real video stream is at ordinal 0 with the
      target codec. Any other stream is dropped exactly when it is data, or of a type
      nobody knows, or a subtitle whose number among the subtitles was given, each
      with its own reason; and every stream that is not dropped is carried as it is. */
  lemma PlanByKind(inventory: seq<Stream>, target: Codec, dropSubtitles: seq<int>, i: nat) returns (k: nat)
    requires DistinctIndexes(inventory) && i < |inventory|
    ensures var plan, s := PlanStreams(inventory, target, dropSubtitles), inventory[i];
            if IsFirstVideo(inventory, i) then
              && plan.kept != []
              && plan.kept[0] == Planned(s.index, 0, s.kind, target, s.language, s.picture, s.forced)
              && forall reason :: Dropped(s.index, reason) !in plan.dropped
            else
              && (Dropped(s.index, DataStream) in plan.dropped <==> s.kind.Data?)
              && (Dropped(s.index, UnknownType) in plan.dropped <==> s.kind.Unidentified?)
              && (Dropped(s.index, UnmuxableSubtitle) in plan.dropped <==>
                    s.kind.Subtitle? && SubtitleNumber(inventory, i) in dropSubtitles)
              && ((s.kind.Video? || s.kind.Audio? || s.kind.Attachment? ||
                   (s.kind.Subtitle? && SubtitleNumber(inventory, i) !in dropSubtitles)) ==>
                    k < |plan.kept| && IsCopy(plan.kept[k], s, k))
  {
    var primary, unmuxable := PrimaryIndex(inventory), Unmuxable(inventory, dropSubtitles);
    FirstVideoIsPrimary(inventory, i);
    UnmuxableByNumber(inventory, dropSubtitles, i);
    forall reason
      ensures Dropped(inventory[i].index, reason) in Omitted(inventory, primary, unmuxable) <==>
              Some(inventory[i].index) != primary && Omission(inventory[i], unmuxable) == Some(reason)
    {
      DroppedIffOmission(inventory, primary, unmuxable, i, reason);
    }
    PrimaryIsThere(inventory);
    k := 0;
    if IsFirstVideo(inventory, i) {
      FoundByIndex(inventory, i);
    } else if Omission(inventory[i], unmuxable).None? {
      k := FilterHas(inventory, Carries(primary, unmuxable), i);
      k := if primary.Some? then k + 1 else k;
      assert Carried(inventory, unmuxable)[k] == inventory[i];
    }
  }

  lemma DroppedIffOmission(inventory: seq<Stream>, primary: Option<int>, unmuxable: set<int>, i: nat, reason: Reason)
    requires DistinctIndexes(inventory) && i < |inventory|
    ensures Dropped(inventory[i].index, reason) in Omitted(inventory, primary, unmuxable) <==>
            Some(inventory[i].index) != primary && Omission(inventory[i], unmuxable) == Some(reason)
  {
    OmittedExactly(inventory, primary, unmuxable, Dropped(inventory[i].index, reason));
    assert inventory[i] in inventory;
    forall s | s in inventory && s.index == inventory[i].index ensures s == inventory[i] {
      var k :| 0 <= k < |inventory| && inventory[k] == s;
    }
  }

  lemma {:induction false} FoundByIndex(inventory: seq<Stream>, i: nat)
    requires DistinctIndexes(inventory) && i < |inventory|
    ensures FirstWith(inventory, Some(inventory[i].index)) == Some(inventory[i])
  {
    if i > 0 {
      assert inventory[0].index != inventory[i].index;
      FoundByIndex(inventory[1..], i - 1);
    }
  }
}
