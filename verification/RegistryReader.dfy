/** The registry's store is a lawful folding for the reader; and when what a cleaner leaves of the topic
    shows the registry of the whole topic. */
module RegistryReader {
  import opened Wrappers
  import Reader
  import opened Store
  import opened StoreInvariant
  import opened RegistryRuns
  import opened Compaction
  import opened ReaderLoop

  /** Subjects, versions, ids and deleted flags, modes and levels. */
  datatype View = View(
    subjects: map<string, seq<Entry>>,
    globalLevel: Option<Level>,
    defaultLevel: Level,
    subjectLevel: map<string, Level>,
    globalMode: Option<Mode>,
    defaultMode: Mode,
    subjectMode: map<string, Mode>)

  function ViewOfState(s: State): View {
    View(s.subjects, s.globalLevel, s.defaultLevel, s.subjectLevel, s.globalMode, s.defaultMode, s.subjectMode)
  }

  ghost function RegistryFolding(f: Formats, level: Level, mode: Mode): Folding<State, Record, View> {
    Folding(
      WithDefaults(level, mode),
      (s: State, r: Record) => Apply(f, s, r),
      (s: State, t: State) => s.(maxId := Max(s.maxId, t.maxId)),
      (s: State) => ViewOfState(s),
      (s: State) => WF(f, s),
      (r: Record) => Encoded(r))
  }

  lemma SameViewStep(f: Formats, s: State, t: State, r: Record)
    requires WF(f, s) && WF(f, t) && SameView(s, t) && Encoded(r)
    ensures SameView(Apply(f, s, r), Apply(f, t, r))
  {
    var a, b := Apply(f, s, r), Apply(f, t, r);
    ApplyKeeps(f, s, r);
    ApplyKeeps(f, t, r);
    forall subject, version ensures Lookup(a, subject, version) == Lookup(b, subject, version) {
      ApplyStepsVersion(f, s, r, subject, version);
      ApplyStepsVersion(f, t, r, subject, version);
      assert Of(s, subject) == Of(t, subject);
    }
    SubjectsDetermined(f, a, b);
    SettingsFollow(f, s, t, r);
  }

  lemma SettingsFollow(f: Formats, s: State, t: State, r: Record)
    requires SameSettings(s, t)
    ensures SameSettings(Apply(f, s, r), Apply(f, t, r))
  {
    var a, b := Apply(f, s, r), Apply(f, t, r);
    DefaultsStep(f, s, r);
    DefaultsStep(f, t, r);
    forall scope ensures ModeOf(a, scope) == ModeOf(b, scope) && LevelOf(a, scope) == LevelOf(b, scope) {
      ApplyStepsSettings(f, s, r, scope);
      ApplyStepsSettings(f, t, r, scope);
    }
    SettingsDetermined(a, b);
  }

  lemma FoldStep(f: Formats, level: Level, mode: Mode, records: seq<Record>)
    requires records != []
    ensures var m, n := RegistryFolding(f, level, mode), |records| - 1;
            FoldAll(m, WithDefaults(level, mode), records) ==
            Apply(f, FoldAll(m, WithDefaults(level, mode), records[..n]), records[n])
  {
    hide Apply, WithDefaults;
  }

  lemma NothingFolded(f: Formats, level: Level, mode: Mode)
    ensures FoldAll(RegistryFolding(f, level, mode), WithDefaults(level, mode), []) == Replayed(f, level, mode, [])
  {}

  lemma {:induction false} FoldsReplay(f: Formats, level: Level, mode: Mode, records: seq<Record>)
    ensures FoldAll(RegistryFolding(f, level, mode), WithDefaults(level, mode), records)
        == Replayed(f, level, mode, records)
  {
    hide Apply, Replayed, RegistryFolding, FoldAll, WithDefaults;
    if records == [] {
      NothingFolded(f, level, mode);
    } else {
      var front, last := records[..|records| - 1], records[|records| - 1];
      FoldStep(f, level, mode, records);
      FoldsReplay(f, level, mode, front);
      ReplayedOne(f, level, mode, front, last);
      assert front + [last] == records;
    }
  }

  lemma RedeliveryIsLawful(f: Formats, level: Level, mode: Mode, records: seq<Record>, from: nat)
    ensures Redeliverable(RegistryFolding(f, level, mode), records, from)
  {
    if from <= |records| && forall r <- records :: Encoded(r) {
      FoldsReplay(f, level, mode, records);
      FoldsReplay(f, level, mode, records + records[from..]);
      RedeliveryKeepsView(f, level, mode, records, from);
    }
  }

  lemma StartsWell(f: Formats, level: Level, mode: Mode)
    ensures WF(f, WithDefaults(level, mode))
  {}

  lemma InheritsWell(f: Formats, s: State, k: int)
    requires WF(f, s)
    ensures WF(f, s.(maxId := Max(s.maxId, k)))
  {
    SameIndex(f, s, s.(maxId := Max(s.maxId, k)));
  }

  /** What the reader loop needs of the store holds of the registry's. */
  lemma RegistryIsFoldable(f: Formats, level: Level, mode: Mode)
    ensures ReaderLoop.Lawful(RegistryFolding(f, level, mode))
  {
    var m := RegistryFolding(f, level, mode);
    StartsWell(f, level, mode);
    forall s: State, r | WF(f, s) ensures WF(f, Apply(f, s, r)) { ApplyKeeps(f, s, r); }
    forall s, t, r | WF(f, s) && WF(f, t) && ViewOfState(s) == ViewOfState(t) && Encoded(r)
      ensures ViewOfState(Apply(f, s, r)) == ViewOfState(Apply(f, t, r))
    {
      SameViewStep(f, s, t, r);
    }
    forall s: State, t: State | WF(f, s) ensures WF(f, m.inherit(s, t)) { InheritsWell(f, s, t.maxId); }
    forall records, from ensures Redeliverable(m, records, from) { RedeliveryIsLawful(f, level, mode, records, from); }
  }

  // ------------------------------------------------------------------
  // A compacted topic
  // ------------------------------------------------------------------

  function KeptTopic(log: Topic<Record>, keep: Filter): Topic<Record> {
    if log == [] then []
    else KeptTopic(log[..|log| - 1], keep) + if keep(|log| - 1) then [log[|log| - 1]] else []
  }

  lemma {:induction false} KeptRecords(log: Topic<Record>, keep: Filter)
    ensures Records(KeptTopic(log, keep)) == Kept(Records(log), keep)
    ensures forall d <- KeptTopic(log, keep) :: d in log
  {
    if log != [] {
      var front := log[..|log| - 1];
      KeptRecords(front, keep);
      assert Records(log)[..|log| - 1] == Records(front);
      assert log == front + [log[|log| - 1]];
    }
  }

  lemma {:induction false} KeptBefore(log: Topic<Record>, keep: Filter, upto: int)
    requires Ordered(log)
    ensures Before(KeptTopic(log, keep), upto) == KeptTopic(Before(log, upto), keep)
  {
    if log != [] {
      var front, last := log[..|log| - 1], log[|log| - 1];
      KeptBefore(front, keep, upto);
      var kept := KeptTopic(front, keep);
      if keep(|log| - 1) {
        assert (kept + [last])[..|kept|] == kept;
      } else {
        assert KeptTopic(log, keep) == kept;
        if last.offset < upto {
          KeptRecords(front, keep);
          forall d <- front ensures d.offset < upto {
            var i :| 0 <= i < |front| && front[i] == d;
            assert log[i] == d;
          }
          AllBelow(kept, upto);
        }
      }
    }
  }

  // Every selection of records of a topic is what some cleaner left.
  ghost function Selecting(log: Topic<Record>, feed: Topic<Record>): Filter {
    (i: nat) => i < |log| && log[i] in feed
  }

  lemma {:induction false} KeptSelected(log: Topic<Record>, feed: Topic<Record>, n: nat)
    requires Ordered(log) && n <= |log|
    ensures Ordered(KeptTopic(log[..n], Selecting(log, feed)))
    ensures forall d :: d in KeptTopic(log[..n], Selecting(log, feed)) <==> d in log[..n] && d in feed
  {
    if n > 0 {
      KeptSelected(log, feed, n - 1);
      assert log[..n][..n - 1] == log[..n - 1] && log[..n] == log[..n - 1] + [log[n - 1]];
      forall d <- log[..n - 1] ensures d.offset < log[n - 1].offset {
        var i :| 0 <= i < n - 1 && log[..n - 1][i] == d;
      }
    }
  }

  lemma HasFirst(a: Topic<Record>)
    requires a != []
    ensures exists d :: d in a
  {
    assert a[0] in a;
  }

  lemma SameLast(a: Topic<Record>, b: Topic<Record>)
    requires Ordered(a) && Ordered(b) && a != [] && b != [] && forall d :: d in a <==> d in b
    ensures a[|a| - 1] == b[|b| - 1]
  {
    assert a[|a| - 1] in b && b[|b| - 1] in a;
  }

  lemma InFront(a: Topic<Record>, d: Delivered<Record>)
    requires Ordered(a) && a != []
    ensures d in a[..|a| - 1] <==> d in a && d != a[|a| - 1]
  {
    var n := |a| - 1;
    if d in a[..n] { var i :| 0 <= i < n && a[..n][i] == d; }
    if d in a && d != a[n] {
      var i :| 0 <= i < |a| && a[i] == d;
      assert a[..n][i] == d;
    }
  }

  lemma {:induction false} OrderedDetermined(a: Topic<Record>, b: Topic<Record>)
    requires Ordered(a) && Ordered(b) && forall d :: d in a <==> d in b
    ensures a == b
  {
    if a != [] { HasFirst(a); }
    if b != [] { HasFirst(b); }
    if a != [] && b != [] {
      var m, n := |a| - 1, |b| - 1;
      SameLast(a, b);
      forall d ensures d in a[..m] <==> d in b[..n] {
        InFront(a, d);
        InFront(b, d);
      }
      assert a == a[..m] + [a[m]] && b == b[..n] + [b[n]];
      OrderedDetermined(a[..m], b[..n]);
    }
  }

  lemma FeedIsKept(log: Topic<Record>, feed: Topic<Record>)
    requires Ordered(log) && Ordered(feed) && forall d <- feed :: d in log
    ensures feed == KeptTopic(log, Selecting(log, feed))
  {
    KeptSelected(log, feed, |log|);
    assert log[..|log|] == log;
    OrderedDetermined(feed, KeptTopic(log, Selecting(log, feed)));
  }

  /** What was delivered shows the registry of the whole topic below an offset exactly when of every version,
      mode and level the last delivered record below it says what the last record below it says. */
  lemma DeliveredShowsTopicIff(f: Formats, level: Level, mode: Mode, log: Topic<Record>, feed: Topic<Record>, upto: int)
    requires var m := RegistryFolding(f, level, mode); TopicOk(m, log) && TopicOk(m, feed) && forall d <- feed ::
          d in log
    ensures var part := Records(Before(log, upto));
            SameAt(RegistryFolding(f, level, mode), feed, log, upto) <==>
                SameRecords(part, Selecting(log, feed), part, ALL)
  {
    hide SameRecords, Selecting;
    var keep, part := Selecting(log, feed), Before(log, upto);
    FeedIsKept(log, feed);
    KeptBefore(log, keep, upto);
    KeptRecords(part, keep);
    BeforeMono(log, upto, upto);
    RecordsEncoded(RegistryFolding(f, level, mode), part);
    FoldsReplay(f, level, mode, Records(part));
    FoldsReplay(f, level, mode, Kept(Records(part), keep));
    KeptShowsLogIff(f, level, mode, Records(part), keep);
  }

  lemma GlobalModeShown(f: Formats, level: Level, mode: Mode, records: seq<Record>)
    ensures ViewOf(RegistryFolding(f, level, mode), records).globalMode == ModeView(records, ALL, None)
  {
    hide Apply, ModeView;
    FoldsReplay(f, level, mode, records);
    KeptAll(records);
    ReplayShowsSettings(f, level, mode, records, ALL, None);
  }

  // A mode, a barrier, the mode set again.
  function SetTwice(before: Mode, after: Mode, token: nat): Topic<Record> {
    [Delivered(0, ModeRecord(None, Some(before)), None), Delivered(1, Noop, Some(token)),
            Delivered(2, ModeRecord(None, Some(after)), None)]
  }

  const FIRST_GONE: Filter := (i: nat) => i != 0

  lemma SetTwiceParts(before: Mode, after: Mode, token: nat)
    ensures var log := SetTwice(before, after, token);
            && Before(log, 2) == log[..2] && Before(log[1..], 2) == log[1..2] && Before(log, 3) == log
            && KeptTopic(log, FIRST_GONE) == log[1..] && Marked(log[1..], token, 2)
  {
    var log := SetTwice(before, after, token);
    assert log[..|log| - 1] == log[..2] && log[..2][..1] == log[..1] && log[..1][..0] == [];
    assert log[1..][..1] == log[1..2] && log[1..][0].token == Some(token);
    assert KeptTopic(log[..1], FIRST_GONE) == KeptTopic([], FIRST_GONE) == [];
    assert KeptTopic(log[..2], FIRST_GONE) == [log[1]];
    assert [log[1]] + [log[2]] == log[1..];
  }

  lemma SetTwiceRecords(before: Mode, after: Mode, token: nat)
    ensures var log := SetTwice(before, after, token);
            && ModeView(Records(log[..2]), ALL, None) == Some(before) && ModeView(Records(log[1..2]), ALL, None) == None
            && Compacts(Records(log), FIRST_GONE)
            && GlobalLevelView(Records(log), FIRST_GONE) == GlobalLevelView(Records(log), ALL)
  {
    var log := SetTwice(before, after, token);
    var a, b, c := log[0].record, log[1].record, log[2].record;
    assert Records(log) == [a, b, c] && Records(log[..2]) == [a, b] && Records(log[1..2]) == [b];
    assert [a, b, c][..2] == [a, b] && [a, b][..1] == [a] && [a][..0] == [] && [b][..0] == [];
    LastUnique([a, b], ModeKey(None), 0);
    assert Last([b], ALL, ModeKey(None)) == Last([], ALL, ModeKey(None)) == -1;
    forall key | key != NoopKey ensures Last([a, b, c], FIRST_GONE, key) == Last([a, b, c], ALL, key) {
      assert Last([], ALL, key) == -1 == Last([], FIRST_GONE, key);
      assert Last([a], FIRST_GONE, key) == -1 && Last([a, b], FIRST_GONE, key) == -1;
      if key != ModeKey(None) { assert Last([a], ALL, key) == -1 == Last([a, b], ALL, key); }
    }
    assert GlobalLevelView([a], ALL) == None == GlobalLevelView([a], FIRST_GONE);
    assert GlobalLevelView([a, b], ALL) == None == GlobalLevelView([a, b], FIRST_GONE);
  }

  /** The cleaner takes the first record away during a replay that ends before the third: up to there what
      was delivered shows no mode, where the topic sets one. One record later the two agree. */
  lemma SupersededRecordIsMissed(f: Formats, level: Level, mode: Mode, before: Mode, after: Mode, token: nat)
    ensures var m, log := RegistryFolding(f, level, mode), SetTwice(before, after, token);
            && TopicOk(m, log) && TopicOk(m, log[1..]) && Marked(log[1..], token, 2)
            && ViewOf(m, Records(Before(log, 2))).globalMode == Some(before)
            && ViewOf(m, Records(Before(log[1..], 2))).globalMode == None
            && !SameAt(m, log[1..], log, 2) && SameAt(m, log[1..], log, 3)
  {
    hide Compacts, Before, Records, ModeView, GlobalLevelView, KeptTopic, ViewOf;
    var m, log := RegistryFolding(f, level, mode), SetTwice(before, after, token);
    SetTwiceParts(before, after, token);
    SetTwiceRecords(before, after, token);
    GlobalModeShown(f, level, mode, Records(log[..2]));
    GlobalModeShown(f, level, mode, Records(log[1..2]));
    CompactedFeedIsFaithful(f, level, mode, log, FIRST_GONE, 3);
    assert SameAt(m, KeptTopic(log, FIRST_GONE), log, 3);
  }

  lemma SetTwiceDelivered(before: Mode, after: Mode, token: nat)
    ensures var log := SetTwice(before, after, token); |log| == 3 && Ordered(log)
    ensures var log := SetTwice(before, after, token); var part := [log[1]];
            && Fresh(part, 0) == Between(log[1..], 0, 2) == part && TokensOf(part) == [token]
            && Before(log[1..], 0) == [] && (forall d <- log :: 0 <= d.offset) && forall d <- log[1..] :: d in log
  {
    var log := SetTwice(before, after, token);
    SetTwiceParts(before, after, token);
    assert [log[1]][..0] == [] && log[1..][..1] == [log[1]] == log[1..2];
    assert Before([log[1]], 0) == Before([], 0);
  }

  lemma OneObserved(token: nat)
    ensures Reader.ObserveAll(Reader.Reserve(Reader.Barriers({}, {}, {}), token), [token]).seen == {token}
  {
    Reader.ObserveAllEffect(Reader.Reserve(Reader.Barriers({}, {}, {}), token), [token]);
  }

  lemma ModeOfShown(f: Formats, level: Level, mode: Mode, s: State, records: seq<Record>)
    requires Shows(RegistryFolding(f, level, mode), s, records)
    ensures ViewOfState(s).globalMode == ViewOf(RegistryFolding(f, level, mode), records).globalMode
  {
    hide ViewOf;
  }

  /** So the reader publishes the barrier from a live store without the mode that was set before it. */
  method PublishTooEarly(ghost f: Formats, level: Level, mode: Mode, m: Folding<State, Record, View>,
          before: Mode, after: Mode, token: nat)
    returns (r: StoreReader<State, Record, View>, poll: Reader.Poll)
    requires m == RegistryFolding(f, level, mode)
    ensures poll.Seen? && r.Reached(token) && !r.Passed(token)
    ensures r.log == SetTwice(before, after, token) && ViewOfState(r.live).globalMode == None
  {
    hide Lawful, Shows, ViewOf, Marked, Records, Before, Between, TopicOk, RegistryFolding, SetTwice, Fresh, TokensOf;
    hide Reader.ObserveAll, SameAt;
    var log := SetTwice(before, after, token);
    RegistryIsFoldable(f, level, mode);
    SupersededRecordIsMissed(f, level, mode, before, after, token);
    SetTwiceDelivered(before, after, token);
    OneObserved(token);
    r := new StoreReader(m, 0);
    assert r.log + log == log;
    r.barriers.ReserveToken(token);
    r.Appear(log, log);
    r.OnReset(0, 2, log[1..]);
    assert r.observed + [token] == [token];
    r.OnFetch([log[1]], Some(2), 2);
    poll := r.PollBarrier(token);
    ModeOfShown(f, level, mode, r.live, Records(Before(r.liveFeed, 2)));
  }

  lemma {:induction false} LevelKeptOn(records: seq<Record>, n: nat, keep: Filter)
    requires n <= |records| && forall i: nat :: n <= i ==> keep(i)
    requires GlobalLevelView(records[..n], keep) == GlobalLevelView(records[..n], ALL)
    ensures GlobalLevelView(records, keep) == GlobalLevelView(records, ALL)
  {
    if n == |records| {
      assert records[..n] == records;
    } else {
      assert records[..|records| - 1][..n] == records[..n];
      LevelKeptOn(records[..|records| - 1], n, keep);
    }
  }

  /** A topic compacted below `end` with the global level kept, in any way, shows from `end` on what the
      whole topic shows. */
  lemma CompactedFeedIsFaithful(f: Formats, level: Level, mode: Mode, log: Topic<Record>, keep: Filter, end: int)
    requires TopicOk(RegistryFolding(f, level, mode), log)
    requires Compacts(Records(Before(log, end)), keep) && forall i: nat :: |Before(log, end)| <= i ==> keep(i)
    requires GlobalLevelView(Records(Before(log, end)), keep) == GlobalLevelView(Records(Before(log, end)), ALL)
    ensures Faithful(RegistryFolding(f, level, mode), KeptTopic(log, keep), log, end)
  {
    hide Compacts, GlobalLevelView, Kept, Replayed, KeptTopic, SameAt, SameView, Apply, WF;
    var m := RegistryFolding(f, level, mode);
    forall upto | end <= upto
      ensures SameAt(m, KeptTopic(log, keep), log, upto)
    {
      var part := Before(log, upto);
      BeforeMono(log, end, upto);
      assert Records(part)[..|Before(log, end)|] == Records(Before(log, end));
      CompactsOn(Records(part), |Before(log, end)|, keep);
      LevelKeptOn(Records(part), |Before(log, end)|, keep);
      CompactionKeepsView(f, level, mode, Records(part), keep);
      CompactedAt(f, level, mode, log, keep, upto);
    }
  }

  lemma CompactedAt(f: Formats, level: Level, mode: Mode, log: Topic<Record>, keep: Filter, upto: int)
    requires TopicOk(RegistryFolding(f, level, mode), log)
    requires var s := Records(Before(log, upto)); SameView(Replayed(f, level, mode, Kept(s, keep)),
            Replayed(f, level, mode, s))
    ensures SameAt(RegistryFolding(f, level, mode), KeptTopic(log, keep), log, upto)
  {
    hide Replayed, Kept, Before, Records;
    KeptBefore(log, keep, upto);
    KeptRecords(Before(log, upto), keep);
    FoldsReplay(f, level, mode, Records(Before(log, upto)));
    FoldsReplay(f, level, mode, Kept(Records(Before(log, upto)), keep));
  }

  /** A store that shows what it was fed of a topic compacted below `end` shows, from `end` on, every record
      that was visible: there a token that polls Seen has been passed. */
  lemma CompactedStoreShowsTopic(f: Formats, level: Level, mode: Mode, log: Topic<Record>, keep: Filter, end: int,
          s: State, shown: int)
    requires TopicOk(RegistryFolding(f, level, mode), log) && end <= shown
    requires Compacts(Records(Before(log, end)), keep) && forall i: nat :: |Before(log, end)| <= i ==> keep(i)
    requires GlobalLevelView(Records(Before(log, end)), keep) == GlobalLevelView(Records(Before(log, end)), ALL)
    requires Shows(RegistryFolding(f, level, mode), s, Records(Before(KeptTopic(log, keep), shown)))
    ensures Shows(RegistryFolding(f, level, mode), s, Records(Before(log, shown)))
  {
    CompactedFeedIsFaithful(f, level, mode, log, keep, end);
    ShowsLogIff(RegistryFolding(f, level, mode), s, KeptTopic(log, keep), log, shown);
    assert SameAt(RegistryFolding(f, level, mode), KeptTopic(log, keep), log, shown);
  }
}
