/** Resolving a recent height through the node's headers: choose the best chain tip that reaches it, then walk back. */
module HeaderWalk {
  import opened Prelude
  import opened ObjectKeys

  datatype Tip = Tip(height: nat, hash: string, status: string)

  datatype Header = Header(hash: string, height: nat, previous: string)

  /** What getblockheader answers for each hash; None stands for every failure. */
  type Headers = string -> Option<Header>

  datatype WalkError = NoTips | NoTipReaches | NoHeader | PassedTarget | NoPrevious | LimitExceeded

  function StatusRank(status: string): nat {
    match status
    case "active" => 3
    case "headers-only" => 2
    case "valid-fork" => 1
    case "valid-headers" => 1
    case _ => 0
  }

  // ----- the best tip

  predicate Reaches(tip: Tip, target: nat) {
    tip.height >= target && TrimSpace(tip.hash) != ""
  }

  /** a ranks strictly above b: by status, then by height. */
  predicate Above(a: Tip, b: Tip) {
    StatusRank(a.status) > StatusRank(b.status) || (StatusRank(a.status) == StatusRank(b.status) && a.height > b.height)
  }

  /** tips[k] is the first of the highest-ranked tips that reach the target. */
  ghost predicate FirstMaximum(tips: seq<Tip>, target: nat, k: nat) {
    && k < |tips| && Reaches(tips[k], target)
    && (forall j :: 0 <= j < |tips| && Reaches(tips[j], target) ==> !Above(tips[j], tips[k]))
    && (forall j :: 0 <= j < k && Reaches(tips[j], target) ==> Above(tips[k], tips[j]))
  }

  function Best(tips: seq<Tip>, target: nat): Option<Tip> {
    if tips == [] then None
    else
      var best, tip := Best(tips[..|tips| - 1], target), tips[|tips| - 1];
      if Reaches(tip, target) && (best.None? || Above(tip, best.value)) then Some(tip) else best
  }

  method BestChainTip(tips: seq<Tip>, target: nat) returns (best: Tip, found: bool)
    ensures Best(tips, target) == if found then Some(best) else None
  {
    best, found := Tip(0, "", ""), false;
    for i := 0 to |tips|
      invariant Best(tips[..i], target) == if found then Some(best) else None
    {
      assert tips[..i + 1][..i] == tips[..i];
      var tip := tips[i];
      if tip.height < target || TrimSpace(tip.hash) == "" {
        continue;
      }
      if !found || StatusRank(tip.status) > StatusRank(best.status)
         || (tip.height > best.height && StatusRank(tip.status) == StatusRank(best.status))
      {
        best, found := tip, true;
      }
    }
    assert tips[..|tips|] == tips;
  }

  /** The loop's choice is the first maximum, and there is none exactly when no usable tip reaches the target. */
  lemma {:induction false} BestIsFirstMaximum(tips: seq<Tip>, target: nat)
    ensures Best(tips, target).None? <==> forall j :: 0 <= j < |tips| ==> !Reaches(tips[j], target)
    ensures Best(tips, target).Some? ==> exists k: nat :: FirstMaximum(tips, target, k) && tips[k] == Best(tips, target).value
  {
    hide Reaches, Above, StatusRank;
    if tips != [] {
      var n := |tips| - 1;
      var front := tips[..n];
      BestIsFirstMaximum(front, target);
      assert forall j :: 0 <= j < n ==> tips[j] == front[j];
      if Best(front, target).Some? {
        var k: nat :| FirstMaximum(front, target, k) && front[k] == Best(front, target).value;
        NewMaximum(tips, target, k);
      } else if Reaches(tips[n], target) {
        NotAboveItself(tips[n]);
        assert FirstMaximum(tips, target, n);
      }
    }
  }

  lemma NotAboveItself(tip: Tip)
    ensures !Above(tip, tip)
  {
  }

  lemma NewMaximum(tips: seq<Tip>, target: nat, k: nat)
    requires |tips| > 0 && FirstMaximum(tips[..|tips| - 1], target, k)
    ensures var last := |tips| - 1;
            FirstMaximum(tips, target, if Reaches(tips[last], target) && Above(tips[last], tips[k]) then last else k)
  {
    hide StatusRank, Reaches;
    var front, last := tips[..|tips| - 1], |tips| - 1;
    assert forall j :: 0 <= j < last ==> tips[j] == front[j];
  }

  /** There is only one first maximum. */
  lemma FirstMaximumIsUnique(tips: seq<Tip>, target: nat, k: nat, k': nat)
    requires FirstMaximum(tips, target, k) && FirstMaximum(tips, target, k')
    ensures k == k'
  {
    hide StatusRank, Reaches;
  }

  /** A tip with a hash, at or above the target. */
  predicate Usable(tip: Tip, target: nat) {
    tip.height >= target && !Blank(tip.hash)
  }

  /** Neither status outranks the other. */
  predicate SameRank(a: string, b: string) {
    || a == b
    || (a in ["valid-fork", "valid-headers"] && b in ["valid-fork", "valid-headers"])
    || (a !in KNOWN && b !in KNOWN)
  }

  const KNOWN: seq<string> := ["active", "headers-only", "valid-fork", "valid-headers"]

  /** Which tip that is, told by the statuses: an active one if any usable tip is active, otherwise one known by its headers
      only, otherwise a valid fork or valid headers, otherwise any; among those the highest, and among these the first. */
  lemma BestByStatus(tips: seq<Tip>, target: nat)
    ensures Best(tips, target).None? <==> forall tip :: tip in tips ==> !Usable(tip, target)
    ensures Best(tips, target).Some? ==>
              exists k: nat :: k < |tips| && tips[k] == Best(tips, target).value && BestAt(tips, target, k)
  {
    hide StatusRank, Reaches, Usable, BestAt, Best, Above;
    BestIsFirstMaximum(tips, target);
    forall tip: Tip ensures Usable(tip, target) <==> Reaches(tip, target) {
      ReachesIsUsable(tip, target);
    }
    if Best(tips, target).Some? {
      var k: nat :| FirstMaximum(tips, target, k) && tips[k] == Best(tips, target).value;
      MaximumByStatus(tips, target, k);
    }
  }

  ghost predicate BestAt(tips: seq<Tip>, target: nat, k: nat)
    requires k < |tips|
  {
    var best := tips[k];
    && Usable(best, target)
    && forall j :: 0 <= j < |tips| && Usable(tips[j], target) ==> NotBetter(tips[j], best, j < k)
  }

  /** tip does not displace best, which it may not even equal when it comes earlier. */
  predicate NotBetter(tip: Tip, best: Tip, earlier: bool) {
    && (tip.status == "active" ==> best.status == "active")
    && (tip.status == "headers-only" ==> best.status in ["active", "headers-only"])
    && (tip.status in KNOWN ==> best.status in KNOWN)
    && (SameRank(tip.status, best.status) ==> tip.height <= best.height && (earlier ==> tip.height < best.height))
  }

  lemma ReachesIsUsable(tip: Tip, target: nat)
    ensures Usable(tip, target) <==> Reaches(tip, target)
  {
    hide TrimSpace, Blank;
    var _, _ := TrimSpaceMeans(tip.hash);
  }

  lemma MaximumByStatus(tips: seq<Tip>, target: nat, k: nat)
    requires FirstMaximum(tips, target, k)
    ensures BestAt(tips, target, k)
  {
    hide TrimSpace, Blank, StatusRank, NotBetter, Usable, Reaches, Above;
    ReachesIsUsable(tips[k], target);
    forall j | 0 <= j < |tips| && Usable(tips[j], target) ensures NotBetter(tips[j], tips[k], j < k) {
      ReachesIsUsable(tips[j], target);
      NotAboveIsNotBetter(tips[j], tips[k], j < k);
    }
  }

  lemma NotAboveIsNotBetter(tip: Tip, best: Tip, earlier: bool)
    requires !Above(tip, best) && (earlier ==> Above(best, tip))
    ensures NotBetter(tip, best, earlier)
  {
  }

  /** The tip chosen for a height is also the one chosen for every higher height it reaches. */
  lemma SameTipHigher(tips: seq<Tip>, target: nat, higher: nat)
    requires target <= higher
    requires Best(tips, target).Some? && Best(tips, target).value.height >= higher
    ensures Best(tips, higher) == Best(tips, target)
  {
    hide StatusRank, Best;
    BestIsFirstMaximum(tips, target);
    BestIsFirstMaximum(tips, higher);
    var k: nat :| FirstMaximum(tips, target, k) && tips[k] == Best(tips, target).value;
    HigherMaximum(tips, target, higher, k);
    var k': nat :| FirstMaximum(tips, higher, k') && tips[k'] == Best(tips, higher).value;
    FirstMaximumIsUnique(tips, higher, k, k');
  }

  lemma HigherMaximum(tips: seq<Tip>, target: nat, higher: nat, k: nat)
    requires target <= higher && FirstMaximum(tips, target, k) && tips[k].height >= higher
    ensures FirstMaximum(tips, higher, k)
  {
    hide Above, StatusRank;
  }

  // ----- the walk

  /** At most attempts headers are asked for, following previous-block links down from current. */
  function Walk(headers: Headers, current: string, target: nat, attempts: nat): Result<string, WalkError>
    decreases attempts
  {
    if attempts == 0 then Failure(LimitExceeded)
    else match headers(current)
      case None => Failure(NoHeader)
      case Some(header) =>
        if header.height == target then Success(if header.hash != "" then header.hash else current)
        else if header.height < target then Failure(PassedTarget)
        else if header.previous == "" then Failure(NoPrevious)
        else Walk(headers, header.previous, target, attempts - 1)
  }

  /** resolveRecentHash, on the tips and headers the node shows; no tips at all stands for a failed getchaintips. */
  function Recent(tips: Option<seq<Tip>>, headers: Headers, target: nat, limit: nat): Result<string, WalkError> {
    match tips
    case None => Failure(NoTips)
    case Some(ts) =>
      match Best(ts, target)
      case None => Failure(NoTipReaches)
      case Some(tip) => Walk(headers, tip.hash, target, limit + 1)
  }

  method ResolveRecentHash(tips: Option<seq<Tip>>, headers: Headers, target: nat, limit: nat)
    returns (r: Result<string, WalkError>)
    ensures r == Recent(tips, headers, target, limit)
  {
    if tips.None? {
      return Failure(NoTips);
    }
    var tip, ok := BestChainTip(tips.value, target);
    if !ok {
      return Failure(NoTipReaches);
    }
    var current, walked := tip.hash, 0;
    while walked <= limit
      invariant 0 <= walked <= limit + 1
      invariant Recent(tips, headers, target, limit) == Walk(headers, current, target, limit + 1 - walked)
    {
      var header := headers(current);
      if header.None? {
        return Failure(NoHeader);
      }
      if header.value.height == target {
        return Success(if header.value.hash != "" then header.value.hash else current);
      }
      if header.value.height < target {
        return Failure(PassedTarget);
      }
      if header.value.previous == "" {
        return Failure(NoPrevious);
      }
      current := header.value.previous;
      walked := walked + 1;
    }
    return Failure(LimitExceeded);
  }

  /** k links down from h lead to x, past headers that are above the target. */
  ghost predicate Trail(headers: Headers, h: string, target: nat, k: nat, x: string)
    decreases k
  {
    if k == 0 then x == h
    else
      match headers(h)
      case None => false
      case Some(header) =>
        header.height > target && header.previous != "" && Trail(headers, header.previous, target, k - 1, x)
  }

  /** On any headers, well linked or not, the walk goes down one trail and its answer says how that trail ends. */
  lemma {:induction false} WalkStops(headers: Headers, h: string, target: nat, attempts: nat) returns (k: nat, x: string)
    ensures k <= attempts && Trail(headers, h, target, k, x)
    ensures var r, at := Walk(headers, h, target, attempts), headers(x);
            && (r == Failure(LimitExceeded) <==> k == attempts)
            && (r == Failure(NoHeader) <==> k < attempts && at.None?)
            && (r == Failure(PassedTarget) <==> k < attempts && at.Some? && at.value.height < target)
            && (r == Failure(NoPrevious) <==> k < attempts && at.Some? && at.value.height > target && at.value.previous == "")
            && (r.Success? <==> k < attempts && at.Some? && at.value.height == target)
            && (r.Success? ==> r.value == if at.value.hash != "" then at.value.hash else x)
    decreases attempts
  {
    k, x := 0, h;
    if attempts > 0 {
      match headers(h)
      case None =>
      case Some(header) =>
        if header.height > target && header.previous != "" {
          k, x := WalkStops(headers, header.previous, target, attempts - 1);
          k := k + 1;
        }
    }
  }

  /** A header view as a node that is not lying shows it: each header under its own hash, one above its parent. */
  ghost predicate WellLinked(headers: Headers) {
    forall h :: headers(h).Some? ==> Linked(headers, h, headers(h).value)
  }

  ghost predicate Linked(headers: Headers, h: string, header: Header) {
    && (header.hash == h || header.hash == "")
    && (header.height > 0 ==>
          header.previous != "" && headers(header.previous).Some? && headers(header.previous).value.height == header.height - 1)
  }

  /** The ancestor of h at the given height. */
  ghost function AncestorAt(headers: Headers, h: string, height: nat): (a: string)
    requires WellLinked(headers) && headers(h).Some? && height <= headers(h).value.height
    ensures headers(a).Some? && headers(a).value.height == height
    decreases headers(h).value.height
  {
    if headers(h).value.height == height then h else AncestorAt(headers, headers(h).value.previous, height)
  }

  /** On well-linked headers the walk answers with the ancestor exactly when it is within the limit, and otherwise stops
      at the limit, never with another answer. */
  lemma {:induction false} WalkFindsAncestor(headers: Headers, h: string, target: nat, attempts: nat)
    requires WellLinked(headers) && headers(h).Some? && target <= headers(h).value.height
    ensures Walk(headers, h, target, attempts) ==
            if headers(h).value.height - target < attempts then Success(AncestorAt(headers, h, target)) else Failure(LimitExceeded)
    decreases attempts
  {
    if attempts > 0 && headers(h).value.height > target {
      WalkFindsAncestor(headers, headers(h).value.previous, target, attempts - 1);
    }
  }

  lemma {:induction false} AncestorOfAncestor(headers: Headers, h: string, upper: nat, lower: nat)
    requires WellLinked(headers) && headers(h).Some? && lower <= upper <= headers(h).value.height
    ensures AncestorAt(headers, AncestorAt(headers, h, upper), lower) == AncestorAt(headers, h, lower)
    decreases headers(h).value.height
  {
    if headers(h).value.height > upper {
      AncestorOfAncestor(headers, headers(h).value.previous, upper, lower);
    }
  }

  /** The tips a node shows are headers it has, at the heights it says. */
  ghost predicate TipsKnown(tips: seq<Tip>, headers: Headers) {
    forall i :: 0 <= i < |tips| ==> Known(tips[i], headers)
  }

  ghost predicate Known(tip: Tip, headers: Headers) {
    TrimSpace(tip.hash) != "" ==> headers(tip.hash).Some? && headers(tip.hash).value.height == tip.height
  }

  lemma BestIsKnown(tips: seq<Tip>, headers: Headers, target: nat)
    requires TipsKnown(tips, headers) && Best(tips, target).Some?
    ensures var tip := Best(tips, target).value;
            Reaches(tip, target) && headers(tip.hash).Some? && headers(tip.hash).value.height == tip.height
  {
    hide TrimSpace, Above, StatusRank, Best;
    BestIsFirstMaximum(tips, target);
    var k: nat :| FirstMaximum(tips, target, k) && tips[k] == Best(tips, target).value;
    assert Known(tips[k], headers);
  }

  /** On well-linked headers: no answer when no tip reaches the target, the best tip's ancestor when it is at most limit
      below the tip, and the limit error otherwise. */
  lemma RecentIsAncestorOfBestTip(tips: seq<Tip>, headers: Headers, target: nat, limit: nat)
    requires WellLinked(headers) && TipsKnown(tips, headers)
    ensures match Best(tips, target)
            case None => Recent(Some(tips), headers, target, limit) == Failure(NoTipReaches)
            case Some(tip) =>
              && headers(tip.hash).Some? && headers(tip.hash).value.height == tip.height >= target
              && Recent(Some(tips), headers, target, limit) ==
                 if tip.height - target <= limit then Success(AncestorAt(headers, tip.hash, target)) else Failure(LimitExceeded)
  {
    hide TrimSpace, Above, StatusRank, Best, TipsKnown;
    if Best(tips, target).Some? {
      BestIsKnown(tips, headers, target);
      WalkFindsAncestor(headers, Best(tips, target).value.hash, target, limit + 1);
    }
  }

  /** The answers for two heights lie on one chain: the lower one is the higher one's ancestor. */
  ghost predicate OnOneChain(headers: Headers, low: string, target: nat, high: string, higher: nat)
    requires WellLinked(headers) && target <= higher
  {
    headers(high).Some? && headers(high).value.height == higher && AncestorAt(headers, high, target) == low
  }

  /** The tips chosen for two heights have the same ancestor at the lower one. */
  ghost predicate TipsMeet(tips: seq<Tip>, headers: Headers, target: nat, higher: nat)
    requires WellLinked(headers) && TipsKnown(tips, headers) && target <= higher
    requires Best(tips, target).Some? && Best(tips, higher).Some?
  {
    BestIsKnown(tips, headers, target);
    BestIsKnown(tips, headers, higher);
    AncestorAt(headers, Best(tips, higher).value.hash, target) == AncestorAt(headers, Best(tips, target).value.hash, target)
  }

  /** Two heights answered from one view lie on one chain if and only if the tips chosen for them meet at the lower one. */
  lemma AnswersOnOneChainIff(tips: seq<Tip>, headers: Headers, target: nat, higher: nat, limit: nat)
    requires WellLinked(headers) && TipsKnown(tips, headers) && target <= higher
    requires Recent(Some(tips), headers, target, limit).Success? && Recent(Some(tips), headers, higher, limit).Success?
    ensures Best(tips, target).Some? && Best(tips, higher).Some?
    ensures OnOneChain(headers, Recent(Some(tips), headers, target, limit).value, target,
                       Recent(Some(tips), headers, higher, limit).value, higher)
            <==> TipsMeet(tips, headers, target, higher)
  {
    hide TrimSpace, Above, StatusRank, Best, TipsKnown, Walk, Recent;
    RecentIsAncestorOfBestTip(tips, headers, target, limit);
    RecentIsAncestorOfBestTip(tips, headers, higher, limit);
    AncestorOfAncestor(headers, Best(tips, higher).value.hash, higher, target);
  }

  /** In particular they do whenever the tip chosen for the lower one reaches the higher one. */
  lemma AnswersOnOneChain(tips: seq<Tip>, headers: Headers, target: nat, higher: nat, limit: nat)
    requires WellLinked(headers) && TipsKnown(tips, headers) && target <= higher
    requires Best(tips, target).Some? && Best(tips, target).value.height >= higher
    requires Recent(Some(tips), headers, target, limit).Success? && Recent(Some(tips), headers, higher, limit).Success?
    ensures OnOneChain(headers, Recent(Some(tips), headers, target, limit).value, target,
                       Recent(Some(tips), headers, higher, limit).value, higher)
  {
    hide TrimSpace, Above, StatusRank, Best, TipsKnown, Walk, Recent, OnOneChain;
    SameTipHigher(tips, target, higher);
    AnswersOnOneChainIff(tips, headers, target, higher, limit);
  }

  /** Two branches over one parent, the shorter one active and the longer one known by its headers only. */
  function TwoBranches(h: string): Option<Header> {
    match h
    case "g" => Some(Header("g", 0, ""))
    case "a" => Some(Header("a", 1, "g"))
    case "b" => Some(Header("b", 1, "g"))
    case "c" => Some(Header("c", 2, "b"))
    case _ => None
  }

  const TWO_TIPS: seq<Tip> := [Tip(1, "a", "active"), Tip(2, "c", "headers-only")]

  lemma BestOfTwoTips()
    ensures Best(TWO_TIPS, 1) == Some(TWO_TIPS[0]) && Best(TWO_TIPS, 2) == Some(TWO_TIPS[1])
    ensures TipsKnown(TWO_TIPS, TwoBranches)
  {
    hide TrimSpace;
    assert TrimSpace("a") == "a" && TrimSpace("c") == "c" by {
      TrimLetter("a");
      TrimLetter("c");
    }
    assert TWO_TIPS[..1] == [TWO_TIPS[0]] && TWO_TIPS[..1][..0] == [];
    assert Best(TWO_TIPS[..1], 1) == Some(TWO_TIPS[0]) && Best(TWO_TIPS[..1], 2) == None;
  }

  lemma TrimLetter(s: string)
    requires |s| == 1 && 'a' <= s[0] <= 'z'
    ensures TrimSpace(s) == s
  {
  }

  lemma TwoBranchesLinked()
    ensures WellLinked(TwoBranches)
  {
  }

  /** And the tips need not meet: an active tip wins at its own height, a longer headers-only branch wins above it, and
      the two answers are on different branches. */
  lemma AnswersOnTwoChains()
    ensures WellLinked(TwoBranches) && TipsKnown(TWO_TIPS, TwoBranches)
    ensures Recent(Some(TWO_TIPS), TwoBranches, 1, 5) == Success("a")
    ensures Recent(Some(TWO_TIPS), TwoBranches, 2, 5) == Success("c")
    ensures AncestorAt(TwoBranches, "c", 1) == "b"
    ensures !OnOneChain(TwoBranches, "a", 1, "c", 2) && Best(TWO_TIPS, 1).Some? && Best(TWO_TIPS, 2).Some?
    ensures !TipsMeet(TWO_TIPS, TwoBranches, 1, 2)
  {
    hide TrimSpace, Best, TipsKnown, WellLinked;
    BestOfTwoTips();
    TwoBranchesLinked();
  }
}
