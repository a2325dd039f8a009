/**
  The SSH agent: `List` names the keys of the live SSH leases, `Sign` signs with one of them. Each
  scans the leases in its own way; `ListAndSignAgree` says they nevertheless offer the same keys.
  Deriving the public key of a stored secret is a parameter, `derive`; it fails on a malformed secret.
  Public keys are their wire form; whether a host key parses is the parameter `parses`.
*/
module SshAgent {
  import opened Common
  import opened DaemonState
  import opened DaemonSections
  import opened DaemonService
  import SshWire

  datatype LeaseKey = LeaseKey(profile: string, key: Option<PublicKey>)

  /** The live SSH leases: the profile of each, and the public key its secret yields. */
  type KeyView = map<(Token, string), LeaseKey>

  datatype Identity = Identity(profile: string, key: PublicKey)

  datatype Signing = Refused | Invalid | NoLease | Signed

  /** What `List` may answer: each profile with a live lease once, or an error when a secret is malformed. */
  ghost predicate ListAnswer(view: KeyView, answer: Option<seq<Identity>>) {
    match answer
    case None => exists k :: k in view && view[k].key == None
    case Some(keys) =>
      && (forall i :: 0 <= i < |keys| ==> Offers(view, keys[i]))
      && (forall k :: k in view ==> Names(keys, view[k].profile))
      && (forall i, j :: 0 <= i < j < |keys| ==> keys[i].profile != keys[j].profile)
  }

  ghost predicate Offers(view: KeyView, identity: Identity) {
    exists k :: k in view && view[k] == LeaseKey(identity.profile, Some(identity.key))
  }

  ghost predicate Names(keys: seq<Identity>, profile: string) {
    exists i :: 0 <= i < |keys| && keys[i].profile == profile
  }

  /** What `Sign` may answer for a request that was recognised, or not, as an authentication request. */
  ghost predicate SignAnswer(view: KeyView, recognised: bool, public: PublicKey, answer: Signing) {
    match answer
    case Refused => !recognised
    case Invalid => recognised && exists k :: k in view && view[k].key == None
    case NoLease => recognised && forall k :: k in view ==> view[k].key.Some? && view[k].key != Some(public)
    case Signed => recognised && exists k :: k in view && view[k].key == Some(public)
  }

  /** The invariant of the daemon that both rest on: a profile's leases all yield one key. */
  ghost predicate OneKeyPerProfile(view: KeyView) {
    && (forall k :: k in view ==> view[k].key.Some?)
    && (forall k1, k2 :: k1 in view && k2 in view && view[k1].profile == view[k2].profile ==>
          view[k1].key == view[k2].key)
  }

  /**
    At one instant, a recognised request is signed exactly when its key is listed, and neither call
    fails on a stored secret.
  */
  lemma ListAndSignAgree(view: KeyView, listed: Option<seq<Identity>>, recognised: bool, public: PublicKey,
                         signing: Signing)
    requires OneKeyPerProfile(view) && ListAnswer(view, listed) && SignAnswer(view, recognised, public, signing)
    ensures listed.Some? && signing != Invalid
    ensures signing == Signed <==> recognised && exists i :: 0 <= i < |listed.value| && listed.value[i].key == public
  {
    var keys := listed.value;
    if signing == Signed {
      var k :| k in view && view[k].key == Some(public);
      assert Names(keys, view[k].profile);
      var i :| 0 <= i < |keys| && keys[i].profile == view[k].profile;
      assert Offers(view, keys[i]);
    }
    forall i | 0 <= i < |keys| && keys[i].key == public ensures signing != NoLease {
      assert Offers(view, keys[i]);
    }
  }

  class LeaseSshAgent {
    const service: Service
    const derive: Bytes -> Option<PublicKey>
    const parses: Bytes -> bool

    constructor (service: Service, derive: Bytes -> Option<PublicKey>, parses: Bytes -> bool)
      ensures this.service == service && this.derive == derive && this.parses == parses
    {
      this.service, this.derive, this.parses := service, derive, parses;
    }

    ghost function View(): KeyView
      reads service, service.LeaseBuffers()
    {
      var cs := service.consumers;
      map t, id | t in cs && id in cs[t].leases && cs[t].leases[id].meta.kind == Ssh ::
        (t, id) := LeaseKey(cs[t].leases[id].meta.profile, derive(cs[t].leases[id].secret[..]))
    }

    /** The view has just the live SSH leases, each with its profile and the key its secret yields. */
    lemma ViewIsOfTheLeases(t: Token, id: string)
      ensures (t, id) in View() <==>
              Live(service.consumers, t, id) && service.consumers[t].leases[id].meta.kind == Ssh
      ensures (t, id) in View() ==>
                var lease := service.consumers[t].leases[id];
                View()[(t, id)].profile == lease.meta.profile && View()[(t, id)].key == derive(lease.secret[..])
    {
    }

    /** A live SSH lease for this profile yields this key, or none. */
    ghost predicate Yields(profile: string, key: Option<PublicKey>)
      reads service, service.LeaseBuffers()
    {
      exists t, id :: Live(service.consumers, t, id) &&
        var lease := service.consumers[t].leases[id];
        lease.meta.kind == Ssh && lease.meta.profile == profile && derive(lease.secret[..]) == key
    }

    lemma OffersYield(profile: string, key: Option<PublicKey>)
      ensures Yields(profile, key) <==> exists k :: k in View() && View()[k] == LeaseKey(profile, key)
    {
      if Yields(profile, key) {
        var t, id :| Live(service.consumers, t, id) &&
                     var lease := service.consumers[t].leases[id];
                     lease.meta.kind == Ssh && lease.meta.profile == profile && derive(lease.secret[..]) == key;
        assert View()[(t, id)] == LeaseKey(profile, key);
      }
    }

    /** The identities listed so far: one for each profile seen, and each offered by a live lease. */
    ghost predicate Listed(keys: seq<Identity>, seen: set<string>)
      reads service, service.LeaseBuffers()
    {
      && (forall i :: 0 <= i < |keys| ==> Offers(View(), keys[i]) && keys[i].profile in seen)
      && (forall p :: p in seen ==> Names(keys, p))
      && (forall i, j :: 0 <= i < j < |keys| ==> keys[i].profile != keys[j].profile)
    }

    method List(now: int, at: int) returns (answer: Option<seq<Identity>>)
      requires service.Valid()
      modifies service, service.LeaseBuffers()
      ensures service.Valid() && Swept(old(service.St()), service.St(), now, at)
      ensures service.Follows(old(service.St()), old(service.Contents()))
      ensures ListAnswer(View(), answer)
      ensures answer.None? ==> exists p :: Yields(p, None)
      ensures answer.Some? ==> forall k :: k in answer.value ==> Yields(k.profile, Some(k.key))
      ensures answer.Some? ==>
                forall t, id :: Live(service.consumers, t, id) && service.consumers[t].leases[id].meta.kind == Ssh ==>
                  exists k :: k in answer.value && k.profile == service.consumers[t].leases[id].meta.profile
    {
      ghost var es := service.ExpireLocked(now, at, service.St(), service.Contents());
      answer := ListLive();
      ListedYield(answer);
    }

    lemma ListedYield(answer: Option<seq<Identity>>)
      requires ListAnswer(View(), answer)
      ensures answer.None? ==> exists p :: Yields(p, None)
      ensures answer.Some? ==> forall k :: k in answer.value ==> Yields(k.profile, Some(k.key))
      ensures answer.Some? ==>
                forall t, id :: Live(service.consumers, t, id) && service.consumers[t].leases[id].meta.kind == Ssh ==>
                  exists k :: k in answer.value && k.profile == service.consumers[t].leases[id].meta.profile
    {
      if answer.None? {
        var k :| k in View() && View()[k].key == None;
        OffersYield(View()[k].profile, None);
      } else {
        forall i | 0 <= i < |answer.value| ensures Yields(answer.value[i].profile, Some(answer.value[i].key)) {
          assert Offers(View(), answer.value[i]);
          OffersYield(answer.value[i].profile, Some(answer.value[i].key));
        }
        forall t, id | Live(service.consumers, t, id) && service.consumers[t].leases[id].meta.kind == Ssh
          ensures exists k :: k in answer.value && k.profile == service.consumers[t].leases[id].meta.profile
        {
          assert Names(answer.value, View()[(t, id)].profile);
        }
      }
    }

    /** The loops of `List`, over what the sweep has left. */
    method ListLive() returns (answer: Option<seq<Identity>>)
      ensures ListAnswer(View(), answer)
    {
      var keys: seq<Identity>, seen: set<string> := [], {};
      var tokens := service.consumers.Keys;
      while tokens != {}
        invariant tokens <= service.consumers.Keys
        invariant Listed(keys, seen)
        invariant forall k :: k in View() && k.0 !in tokens ==> View()[k].profile in seen
      {
        var t :| t in tokens;
        tokens := tokens - {t};
        var ids := service.consumers[t].leases.Keys;
        while ids != {}
          invariant ids <= service.consumers[t].leases.Keys
          invariant Listed(keys, seen)
          invariant forall k :: k in View() && k.0 !in tokens && (k.0 != t || k.1 !in ids) ==> View()[k].profile in seen
        {
          var id :| id in ids;
          ids := ids - {id};
          var lease := service.consumers[t].leases[id];
          if lease.meta.kind == Ssh && lease.meta.profile !in seen {
            var key := derive(lease.secret[..]);
            assert View()[(t, id)] == LeaseKey(lease.meta.profile, key);
            if key == None {
              return None;
            }
            ListOne(keys, seen, Identity(lease.meta.profile, key.value));
            keys := keys + [Identity(lease.meta.profile, key.value)];
            seen := seen + {lease.meta.profile};
          }
        }
      }
      return Some(keys);
    }

    lemma ListOne(keys: seq<Identity>, seen: set<string>, identity: Identity)
      requires Listed(keys, seen) && identity.profile !in seen && Offers(View(), identity)
      ensures Listed(keys + [identity], seen + {identity.profile})
    {
      var more := keys + [identity];
      forall p | p in seen + {identity.profile} ensures Names(more, p) {
        if p in seen {
          var i :| 0 <= i < |keys| && keys[i].profile == p;
          assert more[i].profile == p;
        } else {
          assert more[|keys|].profile == p;
        }
      }
    }

    /** `Sign`, for data and a public key of the given type. */
    method Sign(keyType: Bytes, public: PublicKey, data: Bytes, now: int, at: int) returns (answer: Signing)
      requires service.Valid()
      modifies service, service.LeaseBuffers()
      ensures service.Valid() && service.Follows(old(service.St()), old(service.Contents()))
      ensures var recognised := SshWire.Recognises(keyType, public, parses, data);
              && (recognised ==> Swept(old(service.St()), service.St(), now, at))
              && (!recognised ==> service.St() == old(service.St()))
              && SignAnswer(View(), recognised, public, answer)
      ensures answer == Signed ==> exists p :: Yields(p, Some(public))
      ensures answer == NoLease ==> forall p :: !Yields(p, Some(public)) && !Yields(p, None)
      ensures answer == Invalid ==> exists p :: Yields(p, None)
    {
      if !SshWire.Recognises(keyType, public, parses, data) {
        return Refused;
      }
      ghost var es := service.ExpireLocked(now, at, service.St(), service.Contents());
      answer := SignLive(public);
      SignedYields(public, answer);
    }

    lemma SignedYields(public: PublicKey, answer: Signing)
      requires SignAnswer(View(), true, public, answer)
      ensures answer == Signed ==> exists p :: Yields(p, Some(public))
      ensures answer == NoLease ==> forall p :: !Yields(p, Some(public)) && !Yields(p, None)
      ensures answer == Invalid ==> exists p :: Yields(p, None)
    {
      if answer == NoLease {
        forall p ensures !Yields(p, Some(public)) && !Yields(p, None) {
          OffersYield(p, Some(public));
          OffersYield(p, None);
        }
      } else {
        var key := if answer == Signed then Some(public) else None;
        var k :| k in View() && View()[k].key == key;
        OffersYield(View()[k].profile, key);
      }
    }

    /** The loops of `Sign`, over what the sweep has left. */
    method SignLive(public: PublicKey) returns (answer: Signing)
      ensures SignAnswer(View(), true, public, answer)
    {
      var tokens := service.consumers.Keys;
      while tokens != {}
        invariant tokens <= service.consumers.Keys
        invariant forall k :: k in View() && k.0 !in tokens ==> View()[k].key.Some? && View()[k].key != Some(public)
      {
        var t :| t in tokens;
        tokens := tokens - {t};
        var ids := service.consumers[t].leases.Keys;
        while ids != {}
          invariant ids <= service.consumers[t].leases.Keys
          invariant forall k :: k in View() && k.0 !in tokens && (k.0 != t || k.1 !in ids) ==>
                      View()[k].key.Some? && View()[k].key != Some(public)
        {
          var id :| id in ids;
          ids := ids - {id};
          var lease := service.consumers[t].leases[id];
          if lease.meta.kind == Ssh {
            var key := derive(lease.secret[..]);
            assert View()[(t, id)] == LeaseKey(lease.meta.profile, key);
            if key == None {
              return Invalid;
            }
            if key == Some(public) {
              return Signed;
            }
          }
        }
      }
      return NoLease;
    }
  }
}
