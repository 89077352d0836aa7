/** A run with one fault that ends with a stale index: two chains of two blocks that part at the top, and ranges of one
    block. The first call sees one chain and faults after everything has landed; the second sees the other chain, finds the
    index of the top range there, and passes it. */
module StaleIndex {
  import opened Prelude
  import opened ObjectKeys
  import opened BlockTree
  import opened Services
  import opened Ranges
  import opened FollowerModel
  import opened FollowerRuns
  import opened FollowerIndexes
  import opened FollowerFaults
  import FollowerCache
  import Hex
  import Probes
  import Upload = UploadFollower

  const CONFIG: Config := Config(0, None, 1, 0, 1)

  function Name64(c: char): Hash {
    seq(64, _ => c)
  }

  /** One root with two children. */
  function Fork(): Tree {
    map[Name64('0') := Node(0, "", []), Name64('a') := Node(1, Name64('0'), []), Name64('b') := Node(1, Name64('0'), [])]
  }

  const LEFT: seq<Hash> := [Name64('0'), Name64('a')]
  const RIGHT: seq<Hash> := [Name64('0'), Name64('b')]

  lemma Names()
    ensures Hex.IsHash(Name64('0')) && Hex.IsHash(Name64('a')) && Hex.IsHash(Name64('b'))
    ensures Name64('0') != Name64('a') && Name64('0') != Name64('b') && Name64('a') != Name64('b')
  {
    assert Name64('0')[0] != Name64('a')[0] && Name64('0')[0] != Name64('b')[0] && Name64('a')[0] != Name64('b')[0];
  }

  lemma ForkIsWellFormed()
    ensures WellFormed(Fork()) && IsChain(Fork(), LEFT) && IsChain(Fork(), RIGHT)
  {
    hide Hex.IsHash, Name64;
    Names();
  }

  lemma Settings(tip: nat)
    ensures CONFIG.Valid() && CONFIG.RangeSize() == 1 && CONFIG.ManagedStart() == 0 && CONFIG.EndHeight(tip) == tip
  {
  }

  /** With one-block ranges and no delay everything up to the tip is published. */
  lemma AllPublished(start: nat)
    requires start <= 2
    ensures CONFIG.Valid() && PublishTo(CONFIG, start, 1, 1) == 2
  {
    Settings(1);
    hide Config.RangeSize, Config.ManagedStart;
    assert PublishTo(CONFIG, 2, 1, 1) == 2;
    assert PublishTo(CONFIG, 1, 1, 1) == 2;
  }

  const FRESH: Follower := Follower(false, 0, 0, map[])

  /** The store once a whole call on the left chain has landed. */
  ghost function Landed(): Objects {
    ForkIsWellFormed();
    Settings(1);
    AfterInit(CONFIG, Fork(), LEFT, map[]).objects
  }

  lemma LandedHolds()
    ensures PublishedAs(CONFIG, Landed(), LEFT, 2) && NoOtherIndex(CONFIG, Landed(), 2)
  {
    hide Config.RangeSize, Config.ManagedStart, Config.EndHeight, IsChain, WellFormed, PublishedAs, NoOtherIndex,
      AfterInit, RefusesInit,
      FirstUnindexed, PublishTo, PublishObjects, InitialBlocks, Name64;
    ForkIsWellFormed();
    Settings(1);
    NothingIndexed();
    NoIndexFirst(CONFIG, map[], 1);
    AllPublished(0);
    NotRefusedEmpty();
    InitIndexesIff(CONFIG, Fork(), LEFT, map[]);
    IndexInit(CONFIG, Fork(), LEFT, map[]);
    LandedIsOwn();
  }

  lemma NothingIndexed()
    ensures NoOtherIndex(CONFIG, map[], CONFIG.ManagedStart())
  {
  }

  lemma NotRefusedEmpty()
    ensures CONFIG.Valid() && !RefusesInit(CONFIG, map[], 1)
  {
    Settings(1);
  }

  lemma LandedIsOwn()
    requires IsChain(Fork(), LEFT) && CONFIG.Valid()
    requires IndexInv(CONFIG, Fork(), AfterInit(CONFIG, Fork(), LEFT, map[]))
    requires AfterInit(CONFIG, Fork(), LEFT, map[]).f.nextIndexStart == 2
    ensures NoOtherIndex(CONFIG, Landed(), 2)
  {
    hide IsChain, AfterInit, OnBoundary, Config.RangeSize, Config.ManagedStart;
  }

  /** The first call: everything lands, and then a request faults. */
  lemma FaultyFirst()
    ensures IsChain(Fork(), LEFT) && CONFIG.Valid()
    ensures CallStep(CONFIG, Fork(), LEFT, Sys(FRESH, map[]), Sys(FRESH, Landed()), Failure(Fault))
    ensures WritesInOrder(CONFIG, LEFT, Sys(FRESH, map[]), Sys(FRESH, Landed()))
  {
    hide IsChain, WellFormed, AfterInit, PublishedAs, NoOtherIndex, RangeBin, Name64, Probes.UploadStart, FirstUnindexed,
      NewIndexesWhole,
      FirstInOrder;
    ForkIsWellFormed();
    Settings(1);
    LandedHolds();
    LandedInOrder();
  }

  lemma LandedInOrder()
    requires PublishedAs(CONFIG, Landed(), LEFT, 2) && NoOtherIndex(CONFIG, Landed(), 2)
    ensures CONFIG.Valid() && NewIndexesWhole(CONFIG, LEFT, map[], Landed()) && FirstInOrder(CONFIG, LEFT, map[], Landed())
  {
    hide IsChain, WellFormed, Landed, RangeBin, Name64, Probes.UploadStart, FirstUnindexed;
    Settings(1);
    assert forall h: nat :: h < 2 ==> Stored(Landed(), LEFT, h);
  }

  /** The second call: both ranges are skipped, nothing is written. */
  lemma SkippingSecond()
    ensures IsChain(Fork(), RIGHT) && CONFIG.Valid() && !RefusesInit(CONFIG, Landed(), 1)
    ensures AfterInit(CONFIG, Fork(), RIGHT, Landed()).objects == Landed()
    ensures AfterInit(CONFIG, Fork(), RIGHT, Landed()).f.nextIndexStart == 2
  {
    hide IsChain, WellFormed, Landed, PublishedAs, Name64, FirstUnindexed, PublishTo, Segment, Probes.UploadStart;
    ForkIsWellFormed();
    Settings(1);
    LandedHolds();
    SkipsBoth();
    AllPublished(2);
  }

  lemma SkipsBoth()
    requires PublishedAs(CONFIG, Landed(), LEFT, 2) && NoOtherIndex(CONFIG, Landed(), 2)
    ensures CONFIG.Valid() && FirstUnindexed(CONFIG, Landed(), 0, 1) == 2
  {
    hide Landed, RangeBin, Name64, FirstUnindexed;
    Settings(1);
    FirstUnindexedMeans(CONFIG, Landed(), 0, 1);
    var n := FirstUnindexed(CONFIG, Landed(), 0, 1);
    assert forall st: nat :: st % 1 == 0;
    assert forall st: nat :: st < n ==> Index(1, st) in Landed();
    OnlyTwo(Landed(), n);
  }

  lemma OnlyTwo(objects: Objects, n: nat)
    requires Index(1, 0) in objects && Index(1, 1) in objects && Index(1, 2) !in objects
    requires (forall st: nat :: st < n ==> Index(1, st) in objects) && (n <= 1 ==> Index(1, n) !in objects)
    ensures n == 2
  {
  }

  lemma StaleAtTheTop()
    ensures !PublishedAs(CONFIG, Landed(), RIGHT, 2)
  {
    hide IsChain, WellFormed, Landed, RangeBin, Name64, NoOtherIndex;
    ForkIsWellFormed();
    Settings(1);
    Names();
    LandedHolds();
    if PublishedAs(CONFIG, Landed(), RIGHT, 2) {
      assert Index(1, 1) in Landed();
      BinsTell(Fork(), LEFT, RIGHT, 1, 1, 1);
    }
  }

  /** The run: its last call succeeds, and the top range's index is the other chain's. */
  lemma StaleIndexRun() returns (states: seq<Sys>, events: seq<Event>)
    ensures FreshRun(CONFIG, Fork(), states, events) && |events| == 2
    ensures events[0].result == Failure(Fault) && Settles(CONFIG, events[1])
    ensures events[1].chain == RIGHT && states[2].f.nextIndexStart == 2 && !PublishedAs(CONFIG, states[2].objects, RIGHT, 2)
  {
    hide IsChain, WellFormed, Landed, RangeBin, Name64, PublishedAs, AfterInit, RefusesInit, FirstUnindexed,
      WritesInOrder, FaultStep;
    ForkIsWellFormed();
    Settings(1);
    FaultyFirst();
    SkippingSecond();
    StaleAtTheTop();
    var done := AfterInit(CONFIG, Fork(), RIGHT, Landed());
    Upload.NothingWritten(CONFIG, Fork(), RIGHT, Sys(FRESH, Landed()), done.f);
    states := [Sys(FRESH, map[]), Sys(FRESH, Landed()), done];
    events := [Event(LEFT, Failure(Fault)), Event(RIGHT, Success(FollowResult(1, 0, 2, 0, 0, false)))];
    assert done == Sys(done.f, Landed());
  }
}
