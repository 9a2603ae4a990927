/** A reviewed restore: a downloaded snapshot staged as a new generation, which its owner publishes at most once and
    whose files are removed again only when it can never have become active. */
module NativeRestoreReview {
  import opened Optional
  import opened ActiveMarker
  import opened NativePublication
  import Account = AccountSession

  /** What comes back over the bus. `Lost` is a timeout or a disconnect: the engine may have published or not. */
  datatype Reply = Published(synced: bool) | Busy | Conflict | Strange | Lost

  datatype Outcome = Restored(durable: bool) | Failure(status: int)

  /** The installation directory, and the engine that publishes into it. `published` lists the generations that became
      active, in order. */
  class Installation {
    var marker: string
    var prepared: set<Installed>
    ghost var published: seq<string>
    /** What the engine has answered. */
    ghost var replies: seq<Reply>

    /** The active generation is complete, and it became active through a publication or was there from the start. */
    ghost predicate Valid(first: string)
      reads this
    {
      && MarkerReady(marker, prepared)
      && (ActiveGeneration(marker) == ActiveGeneration(first) || ActiveGeneration(marker) in published)
    }

    /** The engine's `Publish`: it reports busy or conflict, or fails, only when it has not replaced the marker. */
    method Publish(target: Installed, ghost first: string) returns (r: Reply)
      requires Valid(first) && ValidNames(target)
      modifies this
      ensures Valid(first) && prepared == old(prepared)
      ensures published == old(published) || published == old(published) + [target.generation]
      ensures published == old(published) ==> marker == old(marker)
      ensures r.Published? ==> published == old(published) + [target.generation] && marker == Encode(target)
      ensures r.Busy? || r.Conflict? || r.Strange? ==> published == old(published)
      ensures replies == old(replies) + [r]
    {
      r := *;
      var succeeds: bool := *;
      if target in prepared && (r.Published? || (r.Lost? && succeeds)) {
        DecodeEncode(target);
        marker, published := Encode(target), published + [target.generation];
      } else if r.Published? {
        r := Lost;
      }
      replies := replies + [r];
    }

    /** Somebody else publishes: generation names are random. */
    method OtherPublishes(target: Installed, generation: string, ghost first: string)
      requires Valid(first) && ValidNames(target) && target.generation != generation
      modifies this
      ensures Valid(first)
      ensures prepared == old(prepared) + {target} && published == old(published) + [target.generation]
    {
      prepared := prepared + {target};
      DecodeEncode(target);
      marker, published := Encode(target), published + [target.generation];
    }

    /** Other reviews and other processes publish and discard in between. */
    method Others(generation: string, ghost first: string)
      requires Valid(first)
      modifies this
      ensures Valid(first)
      ensures old(published) <= published
              && forall i :: |old(published)| <= i < |published| ==> published[i] != generation
      ensures forall n: Installed :: n.generation == generation ==> (n in prepared <==> n in old(prepared))
    {
      hide Valid;
      var target: Installed := *;
      var acts: bool := *;
      if acts && ValidNames(target) && target.generation != generation {
        OtherPublishes(target, generation, first);
      }
      var doomed: string, leased: bool := *, *;
      if doomed != generation {
        Discard(doomed, leased, first);
      }
    }

    /** `discard_worker`: under a shared lease, and only if the generation is not the active one. */
    method Discard(generation: string, leased: bool, ghost first: string)
      requires Valid(first)
      modifies this`prepared
      ensures Valid(first)
      ensures prepared == if leased && ActiveGeneration(marker) != generation
                          then set n | n in old(prepared) && n.generation != generation else old(prepared)
    {
      if leased && ActiveGeneration(marker) != generation {
        prepared := set n | n in prepared && n.generation != generation;
      }
    }
  }

  function Times(published: seq<string>, generation: string): nat {
    multiset(published)[generation]
  }

  class Review {
    const names: Installed
    const account: nat
    const user: string
    var staged: bool
    var attempted: bool

    /** The generation was published at most once, and while it could still be discarded it never was. */
    ghost predicate Valid(at: Installation)
      reads this, at
    {
      && ValidNames(names) && Times(at.published, names.generation) <= 1
      && (staged && !attempted ==> Times(at.published, names.generation) == 0)
    }

    /** The end of `prepare`: the generation carries a new random name. */
    constructor (names: Installed, account: nat, user: string, at: Installation)
      requires ValidNames(names) && names.generation !in at.published
      ensures Valid(at) && staged && !attempted && this.names == names && this.account == account && this.user == user
    {
      this.names, this.account, this.user, staged, attempted := names, account, user, true, false;
    }

    /** `publish`: sent at most once unless the engine said that nothing happened, and only for the account that was
        reviewed. The answer is the engine's own reply. */
    method Publish(at: Installation, session: Account.AccountSession, cancelled: bool, ghost first: string)
      returns (r: Outcome)
      requires Valid(at) && at.Valid(first) && session.Valid()
      modifies this`attempted, at
      ensures Valid(at) && at.Valid(first) && at.prepared == old(at.prepared)
      ensures cancelled || !staged || old(attempted) || !session.Current(account) || session.UserId() != Some(user) ==>
        && at.replies == old(at.replies) && at.published == old(at.published) && at.marker == old(at.marker)
        && attempted == old(attempted)
        && r == Failure(if cancelled then 0 else if !staged || old(attempted) then 409 else 0)
      ensures !(cancelled || !staged || old(attempted) || !session.Current(account)
                || session.UserId() != Some(user)) ==>
        && |at.replies| == |old(at.replies)| + 1
        && var reply := at.replies[|old(at.replies)|];
           && attempted == !(reply.Busy? || reply.Conflict?)
           && r == (match reply
                    case Published(synced) => Restored(synced)
                    case Busy => Failure(423)
                    case Conflict => Failure(409)
                    case Strange => Failure(503)
                    case Lost => Failure(503))
      ensures at.published != old(at.published) ==>
        session.Current(account) && session.UserId() == Some(user) && session.Names(account, Some(user))
      ensures r.Restored? ==>
        attempted && at.marker == Encode(names) && at.published == old(at.published) + [names.generation]
      ensures !attempted ==> at.published == old(at.published) && at.marker == old(at.marker)
    {
      if cancelled { return Failure(0); }
      if !staged || attempted { return Failure(409); }
      var current := session.WithCurrentUser(account, user);
      if !current { return Failure(0); }
      attempted := true;
      OneMore(at.published, names.generation);
      var reply := at.Publish(names, first);
      match reply {
        case Published(synced) => r := Restored(synced);
        case Busy =>
          attempted := false;
          r := Failure(423);
        case Conflict =>
          attempted := false;
          r := Failure(409);
        case _ => r := Failure(503);
      }
    }

    /** The destructor. The files go only if the generation was never published. */
    method Destroy(at: Installation, leased: bool, ghost first: string)
      requires Valid(at) && at.Valid(first) && ActiveGeneration(first) != names.generation
      modifies at`prepared
      ensures at.Valid(first)
      ensures names.generation in at.published ==> at.prepared == old(at.prepared)
      ensures at.prepared == if staged && !attempted && leased
                             then set n | n in old(at.prepared) && n.generation != names.generation
                             else old(at.prepared)
    {
      NeverPublished(at.published, names.generation);
      if staged && !attempted {
        at.Discard(names.generation, leased, first);
      }
    }
  }

  lemma OneMore(published: seq<string>, generation: string)
    ensures Times(published + [generation], generation) == Times(published, generation) + 1
  {
  }

  lemma NeverPublished(published: seq<string>, generation: string)
    ensures Times(published, generation) == 0 <==> generation !in published
  {
    assert generation in published <==> generation in multiset(published);
  }

  lemma OthersAdd(before: seq<string>, after: seq<string>, generation: string)
    requires before <= after && forall i :: |before| <= i < |after| ==> after[i] != generation
    ensures Times(after, generation) == Times(before, generation)
  {
    var more := after[|before|..];
    assert after == before + more;
    assert forall x :: x in more ==> x != generation;
  }

  /** Over the whole life of a review - any number of attempts to publish it, with account operations and other
      publishers in between - its generation is published at most once, and its files are still there at the end if it
      was. */
  method Lifetime(review: Review, at: Installation, session: Account.AccountSession, requests: seq<Account.Request>,
                  leased: bool)
    requires review.Valid(at) && session.Valid()
    requires MarkerReady(at.marker, at.prepared) && ActiveGeneration(at.marker) != review.names.generation
    requires review.staged && !review.attempted && review.names in at.prepared
    modifies review`attempted, at, session, session.client, session.store
    ensures Times(at.published, review.names.generation) <= 1
    ensures Times(at.published, review.names.generation) == 1 ==> review.names in at.prepared
    ensures MarkerReady(at.marker, at.prepared)
  {
    ghost var first := at.marker;
    var generation := review.names.generation;
    var i := 0;
    while i < |requests|
      invariant 0 <= i <= |requests| && session.Valid() && at.Valid(first) && review.Valid(at)
      invariant review.names in at.prepared
    {
      Account.Perform(session, requests[i]);
      ghost var before := at.published;
      at.Others(generation, first);
      OthersAdd(before, at.published, generation);
      var cancelled: bool := *;
      var outcome := review.Publish(at, session, cancelled, first);
      i := i + 1;
    }
    NeverPublished(at.published, generation);
    review.Destroy(at, leased, first);
  }
}
