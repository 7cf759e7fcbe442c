/** The completion pass of the progress view, on every map the reducer can produce. */
module ProgressCompletion {
  import opened Wrappers
  import opened Sorting
  import opened Progress
  import opened ProgressMessages

  // ---------- maps the reducer produces ----------

  /** What the reducer guarantees of a stored step. */
  ghost predicate Kept(key: string, s: Step) {
    var m := MatchMessage(s.event.message);
    && m.key == key
    && GoodDetails(s.details, key)
    && (if m.kind == Main then s.details == [] else DetailAt(s.details, m.detailId) == Some(s.event))
  }

  ghost predicate WellKept(progress: Snapshot) {
    forall key :: key in progress ==> Kept(key, progress[key])
  }

  lemma MergeKeeps(key: string, existing: Option<Step>, e: Event)
    requires existing.Some? ==> Kept(key, existing.value)
    requires MatchMessage(e.message).key == key
    ensures Kept(key, Merge(existing, e))
  {
    hide MatchMessage, Upsert;
    if MatchMessage(e.message).kind != Main {
      var details := if existing.Some? then existing.value.details else [];
      UpsertFacts(details, ToDetail(e));
      UpsertKeepsGood(details, e, key);
    }
  }

  lemma AddKeeps(m: Snapshot, e: Event)
    requires WellKept(m)
    ensures WellKept(Add(m, e))
  {
    hide MatchMessage, Upsert;
    MergeKeeps(MatchMessage(e.message).key, Lookup(m, MatchMessage(e.message).key), e);
  }

  lemma {:induction false} ReachableIsWellKept(events: seq<Event>)
    ensures WellKept(AddAll(events))
  {
    hide MatchMessage, Merge;
    if events != [] {
      ReachableIsWellKept(events[..|events| - 1]);
      AddKeeps(AddAll(events[..|events| - 1]), events[|events| - 1]);
    }
  }

  // ---------- completion events ----------

  lemma ReceiverKeyOfMatch(m: string)
    ensures MatchMessage(m).kind in {Streaming, Export} ==>
              MatchMessage(m).key == ReceiverKey(MatchMessage(m).receiverName)
    ensures MatchMessage(m).kind == Main ==> MatchMessage(m).key == "main"
    ensures MatchMessage(m).kind == Unknown ==> MatchMessage(m).key == m
  {
    hide ExportChunk;
  }

  /** The completion of a step belongs to the step, has its kind and stands at 100 percent. */
  lemma CompleteEventMatches(e: Event)
    ensures var m := MatchMessage(e.message);
            var c := CompleteEvent(m, e);
            && MatchMessage(c.message).key == m.key && MatchMessage(c.message).kind == m.kind
            && MatchMessage(c.message).receiverName == m.receiverName
            && (m.kind != Unknown ==> Percent(c) == Some(100.0))
            && CompleteEvent(MatchMessage(c.message), c) == c
  {
    var m := MatchMessage(e.message);
    hide MatchMessage;
    ReceiverKeyOfMatch(e.message);
    CompleteMatchesMain();
    FinalizedMatchesBack(m.receiverName);
    FinishedExportingMatchesBack(m.receiverName);
    match m.kind
    case Main =>
      MainHasNoReceiver(e.message);
    case Streaming =>
    case Export =>
    case Unknown =>
  }

  lemma MainHasNoReceiver(m: string)
    ensures MatchMessage(m).kind == Main ==> MatchMessage(m).receiverName == ""
  {
    hide ExportChunk;
  }

  lemma SortValueAtMost100(e: Event)
    ensures SortValue(e) <= 100.0
  {
  }

  // ---------- one turn of the loop ----------

  /** What the pass makes of a step, whatever else is in the map. */
  function CompletedStep(s: Step): Step {
    var m := MatchMessage(s.event.message);
    match m.kind
    case Main => Step(COMPLETE, [])
    case Unknown => s
    case _ => Step(CompleteEvent(m, s.event), Upsert(s.details, ToDetail(CompleteEvent(m, s.event))))
  }

  lemma UpsertOfStored(details: seq<Detail>, d: Detail)
    requires UniqueIds(details) && Sorted(details, NotAfter) && DetailAt(details, d.id) == Some(d.event)
    ensures Upsert(details, d) == details
  {
    var i := IndexOf(details, d.id);
    assert details[i := d] == details;
    SortOfSorted(details, NotAfter);
  }

  lemma UpsertOfLater(details: seq<Detail>, d: Detail)
    requires UniqueIds(details + [d]) && Sorted(details + [d], NotAfter)
    ensures Upsert(details, d) == details + [d]
  {
    var all := details + [d];
    assert forall i :: 0 <= i < |details| ==> details[i] == all[i] && all[i].id != all[|details|].id;
    SortOfSorted(all, NotAfter);
  }

  lemma GoodPrefix(details: seq<Detail>, key: string)
    requires details != [] && GoodDetails(details, key)
    ensures GoodDetails(details[..|details| - 1], key)
  {
  }

  lemma NextDetailMerged(key: string, existing: Option<Step>, init: seq<Detail>, d: Detail)
    requires GoodDetails(init + [d], key)
    requires init == (if existing.Some? then existing.value.details else [])
    ensures MatchMessage(d.event.message).key == key
    ensures Merge(existing, d.event) == Step(d.event, init + [d])
  {
    hide MatchMessage, Upsert;
    var all := init + [d];
    assert all[|init|] == d;
    UpsertOfLater(init, d);
    assert ToDetail(d.event) == d;
  }

  /** Re-adding the stored details one by one rebuilds the list. */
  lemma {:induction false} DetailsRebuilt(m: Snapshot, key: string, details: seq<Detail>)
    requires key !in m && GoodDetails(details, key)
    ensures MergeDetails(m, details)
            == if details == [] then m else m[key := Step(details[|details| - 1].event, details)]
  {
    hide MatchMessage, Upsert, Merge, GoodDetails;
    if details != [] {
      var init, d := details[..|details| - 1], details[|details| - 1];
      GoodPrefix(details, key);
      DetailsRebuilt(m, key, init);
      assert details == init + [d];
      NextDetailMerged(key, Lookup(MergeDetails(m, init), key), init, d);
    }
  }

  lemma ItemRebuilt(m: Snapshot, key: string, s: Step)
    requires key !in m && Kept(key, s)
    ensures Add(MergeDetails(m, s.details), s.event) == m[key := s]
  {
    hide MatchMessage, Upsert, MergeDetails, DetailAt;
    DetailsRebuilt(m, key, s.details);
    if MatchMessage(s.event.message).kind != Main {
      UpsertOfStored(s.details, ToDetail(s.event));
      StoredMeansNonEmpty(s.details, MatchMessage(s.event.message).detailId);
    }
  }

  lemma StoredMeansNonEmpty(details: seq<Detail>, id: string)
    requires DetailAt(details, id).Some?
    ensures details != []
  {
  }

  lemma CompletionIsMerged(key: string, s: Step)
    requires Kept(key, s)
    ensures var c := CompleteEvent(MatchMessage(s.event.message), s.event);
            && Merge(Some(s), c) == CompletedStep(s) && SortValue(c) >= SortValue(s.event)
  {
    hide MatchMessage, Upsert, DetailAt, Percent, SortValue;
    var m := MatchMessage(s.event.message);
    var c := CompleteEvent(m, s.event);
    CompleteEventMatches(s.event);
    SortValueAtMost100(s.event);
    if m.kind == Unknown {
      UpsertOfStored(s.details, ToDetail(s.event));
    } else {
      SortValueOf(c);
    }
  }

  lemma SortValueOf(e: Event)
    ensures Percent(e) == Some(100.0) ==> SortValue(e) == 100.0
  {
  }

  /** A turn for a step that is not in the result yet adds its completed form and nothing else. */
  lemma ItemCompleted(m: Snapshot, key: string, s: Step)
    requires key !in m && Kept(key, s)
    ensures CompleteItem(m, s) == m[key := CompletedStep(s)]
  {
    hide MatchMessage, Merge, MergeDetails, Add, SortValue, CompleteEvent, CompletedStep, DetailAt, GoodDetails;
    ItemRebuilt(m, key, s);
    CompletionIsMerged(key, s);
    CompletionEvent(s);
  }

  lemma CompletionEvent(s: Step)
    ensures Merge(Some(s), CompleteEvent(MatchMessage(s.event.message), s.event)).event
            == CompleteEvent(MatchMessage(s.event.message), s.event)
  {
    hide MatchMessage, CompleteEvent, Upsert;
  }

  // ---------- the whole pass ----------

  lemma {:induction false} ItemsCompleted(progress: Snapshot, keys: seq<string>)
    requires WellKept(progress) && forall i :: 0 <= i < |keys| ==> keys[i] in progress
    requires forall i, j :: 0 <= i < j < |keys| ==> keys[i] != keys[j]
    ensures CompleteItems(map[], progress, keys) == map k | k in progress && k in keys :: CompletedStep(progress[k])
  {
    hide CompletedStep, CompleteItem, Kept;
    if keys != [] {
      var init, key := keys[..|keys| - 1], keys[|keys| - 1];
      ItemsCompleted(progress, init);
      assert keys == init + [key];
      ItemCompleted(CompleteItems(map[], progress, init), key, progress[key]);
    }
  }

  /** The result of the pass, independent of the order of enumeration. */
  function Completed(progress: Snapshot): Snapshot {
    (map k | k in progress :: CompletedStep(progress[k]))["main" := Step(COMPLETE, [])]
  }

  /** The pass completes each step on its own and then the main step: the order does not matter. */
  lemma NormalizedIsCompleted(progress: Snapshot, keys: seq<string>)
    requires WellKept(progress) && Enumerates(keys, progress)
    ensures NormalizedInOrder(progress, keys) == Completed(progress)
  {
    hide CompletedStep, Kept, CompleteItems, MatchMessage;
    ItemsCompleted(progress, keys);
    CompleteMatchesMain();
    assert (map k | k in progress && k in keys :: CompletedStep(progress[k]))
      == (map k | k in progress :: CompletedStep(progress[k]));
  }

  lemma CompletedStepIsKept(key: string, s: Step)
    requires Kept(key, s)
    ensures Kept(key, CompletedStep(s)) && CompletedStep(CompletedStep(s)) == CompletedStep(s)
    ensures MatchMessage(CompletedStep(s).event.message).kind == MatchMessage(s.event.message).kind
    ensures MatchMessage(s.event.message).kind != Unknown ==> Percent(CompletedStep(s).event) == Some(100.0)
  {
    hide MatchMessage, Upsert, DetailAt, Percent, GoodDetails, CompleteEvent;
    var m := MatchMessage(s.event.message);
    var c := CompleteEvent(m, s.event);
    CompleteEventMatches(s.event);
    CompletionOfMain(m, s.event);
    if m.kind == Main {
      NothingStored(key);
    } else if m.kind != Unknown {
      var d := ToDetail(c);
      assert Merge(Some(s), c) == CompletedStep(s);
      MergeKeeps(key, Some(s), c);
      UniqueIfGood(s.details, key);
      UpsertFacts(s.details, d);
      var now := Upsert(s.details, d);
      UpsertOfStored(now, d);
    }
  }

  /** What the pass makes of a step, in full: the completion of its kind with the receiver's name, at 100 of 100, stored
      under the detail that stands for it; all other details stay; an unknown step stays as it is. */
  ghost predicate CompletedAs(before: Step, after: Step) {
    var m := MatchMessage(before.event.message);
    match m.kind
    case Main => after == Step(Event("Simulation complete", 100, 100), [])
    case Streaming =>
      && after.event == Event("Finalized " + m.receiverName, 100, 100)
      && DetailReplaced(before.details, after.details, "streaming-finalized", after.event)
    case Export =>
      && after.event == Event("Finished Exporting " + m.receiverName, 100, 100)
      && DetailReplaced(before.details, after.details, "export-finished", after.event)
    case Unknown => after == before
  }

  ghost predicate DetailReplaced(before: seq<Detail>, after: seq<Detail>, id: string, e: Event) {
    forall other :: DetailAt(after, other) == if other == id then Some(e) else DetailAt(before, other)
  }

  lemma StepCompletedAs(key: string, s: Step)
    requires Kept(key, s)
    ensures CompletedAs(s, CompletedStep(s))
  {
    var m := MatchMessage(s.event.message);
    FinalizedMatchesBack(m.receiverName);
    FinishedExportingMatchesBack(m.receiverName);
    hide MatchMessage, Upsert, DetailAt, GoodDetails;
    UniqueIfGood(s.details, key);
    if m.kind == Streaming || m.kind == Export {
      UpsertFacts(s.details, ToDetail(CompleteEvent(m, s.event)));
    }
  }

  lemma UniqueIfGood(details: seq<Detail>, key: string)
    requires GoodDetails(details, key)
    ensures UniqueIds(details)
  {
  }

  lemma NothingStored(key: string)
    ensures GoodDetails([], key) && forall id :: DetailAt([], id) == None
  {
  }

  lemma CompletionOfMain(m: Match, e: Event)
    ensures m.kind == Main ==> CompleteEvent(m, e) == COMPLETE
  {
  }

  /** The completed map is one the pass can be given again, and running it again changes nothing. */
  lemma CompletedIsIdempotent(progress: Snapshot)
    requires WellKept(progress)
    ensures WellKept(Completed(progress)) && Completed(Completed(progress)) == Completed(progress)
  {
    hide CompletedStep, Kept;
    var done := Completed(progress);
    MainIsKept();
    forall key | key in done
      ensures Kept(key, done[key]) && (key != "main" ==> CompletedStep(done[key]) == done[key])
    {
      if key != "main" {
        CompletedStepIsKept(key, progress[key]);
      }
    }
    assert Completed(done) == done;
  }

  lemma MainIsKept()
    ensures Kept("main", Step(COMPLETE, []))
  {
    hide MatchMessage;
    CompleteMatchesMain();
  }

  /** On every map the reducer can produce, for every order of enumeration, the pass keeps each key and adds at
      most the main one, completes every other step under its own key and no more, leaves every
      recognised step at 100 percent, and is idempotent. */
  lemma CompletionPass(events: seq<Event>, keys: seq<string>, again: seq<string>)
    requires Enumerates(keys, AddAll(events))
    requires forall k :: k in again <==> k in AddAll(events) || k == "main"
    requires forall i, j :: 0 <= i < j < |again| ==> again[i] != again[j]
    ensures var before := AddAll(events);
            var after := NormalizedInOrder(before, keys);
            && after.Keys == before.Keys + {"main"}
            && (forall k | k in before && k != "main" ::
                  && CompletedAs(before[k], after[k]) && GoodDetails(after[k].details, k)
                  && MatchMessage(after[k].event.message).key == k
                  && (MatchMessage(before[k].event.message).kind != Unknown ==> Percent(after[k].event) == Some(100.0)))
            && after["main"] == Step(Event("Simulation complete", 100, 100), [])
            && (forall i :: 0 <= i < |again| ==> again[i] in after)
            && NormalizedInOrder(after, again) == after
  {
    hide NormalizedInOrder, CompletedStep, CompletedAs, MatchMessage, DetailAt, Percent, GoodDetails;
    var before := AddAll(events);
    ReachableIsWellKept(events);
    NormalizedIsCompleted(before, keys);
    CompletedIsIdempotent(before);
    var after := Completed(before);
    assert after.Keys == before.Keys + {"main"};
    NormalizedIsCompleted(after, again);
    forall k | k in before && k != "main"
      ensures CompletedAs(before[k], after[k]) && GoodDetails(after[k].details, k)
      ensures MatchMessage(after[k].event.message).key == k
      ensures MatchMessage(before[k].event.message).kind != Unknown ==> Percent(after[k].event) == Some(100.0)
    {
      CompletedStepIsKept(k, before[k]);
      StepCompletedAs(k, before[k]);
    }
  }

  /** The loop of `normalizeCompletedProgressSnapshot`. */
  method NormalizeCompletedProgressSnapshot(progress: Snapshot, keys: seq<string>) returns (completedProgress: Snapshot)
    requires forall i :: 0 <= i < |keys| ==> keys[i] in progress
    ensures completedProgress == NormalizedInOrder(progress, keys)
  {
    hide MatchMessage, Merge, ChooseLatest, CompleteEvent;
    completedProgress := map[];
    for i := 0 to |keys|
      invariant completedProgress == CompleteItems(map[], progress, keys[..i])
    {
      var item := progress[keys[i]];
      ghost var before := completedProgress;
      assert keys[..i + 1][..i] == keys[..i];
      for j := 0 to |item.details|
        invariant completedProgress == MergeDetails(before, item.details[..j])
      {
        assert item.details[..j + 1][..j] == item.details[..j];
        var detailProgress := item.details[j].event;
        var key := MatchMessage(detailProgress.message).key;
        completedProgress := completedProgress[key := Merge(Lookup(completedProgress, key), detailProgress)];
      }
      assert item.details[..|item.details|] == item.details;
      var found := MatchMessage(item.event.message);
      completedProgress := completedProgress[found.key := Merge(Lookup(completedProgress, found.key), item.event)];
      var completedItem := CompleteEvent(found, item.event);
      var mergedItem := Merge(Lookup(completedProgress, found.key), completedItem);
      var latest := ChooseLatest(Lookup(completedProgress, found.key), mergedItem);
      completedProgress := completedProgress[found.key := latest];
    }
    assert keys[..|keys|] == keys;
    CompleteMatchesMain();
    completedProgress := completedProgress["main" := Merge(Lookup(completedProgress, "main"), COMPLETE)];
  }
}
