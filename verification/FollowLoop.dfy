/** Follow mode: one follower, called again and again while its node moves from chain to chain. */
module FollowLoop {
  import opened Prelude
  import opened BlockTree
  import opened Services
  import opened Ranges
  import opened FollowerModel
  import opened FollowerRuns
  import FollowerCache
  import UploadFollower

  /** Whatever each call answers, the loop goes on; so what it does is a run, and all that holds of runs holds of it. */
  method Follow(follower: UploadFollower.UploadFollower, chains: seq<seq<Hash>>) returns (events: seq<Event>,
          ghost states: seq<Sys>)
    requires follower.backend.Valid() && follower.cfg.Valid()
    requires FollowerCache.Inv(follower.cfg, follower.backend.tree, follower.State())
    requires forall i :: 0 <= i < |chains| ==> IsChain(follower.backend.tree, chains[i]) && |chains[i]| <= MAX_U64
    modifies follower, follower.backend
    ensures |events| == |chains| && forall i :: 0 <= i < |chains| ==> events[i].chain == chains[i]
    ensures IsRun(follower.cfg, follower.backend.tree, states, events)
    ensures states[0] == old(Sys(follower.State(), follower.backend.objects))
    ensures states[|chains|] == Sys(follower.State(), follower.backend.objects)
  {
    hide FollowerCache.Inv, CallStep, WritesInOrder, IsChain, WellFormed, Backend.Valid,
      UploadFollower.UploadFollower.State;
    follower.backend.ShowsChain();
    events, states := [], [Sys(follower.State(), follower.backend.objects)];
    for i := 0 to |chains|
      invariant follower.backend.Valid() && FollowerCache.Inv(follower.cfg, follower.backend.tree, follower.State())
      invariant |events| == i && forall j :: 0 <= j < i ==> events[j].chain == chains[j]
      invariant IsRun(follower.cfg, follower.backend.tree, states, events)
      invariant states[0] == old(Sys(follower.State(), follower.backend.objects))
      invariant states[i] == Sys(follower.State(), follower.backend.objects)
    {
      follower.backend.Reorganise(chains[i]);
      var result := follower.UploadOnce();
      events := events + [Event(chains[i], result)];
      states := states + [Sys(follower.State(), follower.backend.objects)];
    }
  }
}
