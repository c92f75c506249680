/** The receiving end of the peer link: the order in which a request is
    authenticated, charged, counted as contact and only then acted on.

    Reading the body, its JSON and the envelope's own validation are given. The
    pairing and identify routes are not served here. */
module Receiving {
  import opened Base
  import Authentication
  import FixedWindows
  import Claims
  import EventLedger

  datatype Route = Ping | Heartbeat | Events

  datatype Peer = Peer(slug: string, linkID: string, demoting: set<string>)

  /** An event as the envelope states it. */
  datatype Envelope = Envelope(eventID: string, condition: string, cleared: bool)

  /** What each later stage answers for this request. */
  datatype World = World(
    now: Time, creds: seq<Authentication.Credential>, peers: seq<Peer>,
    envelope: Result<Envelope, EventLedger.Early>, rejecting: bool,
    storeUp: bool, ingests: bool, forgets: bool)

  datatype Reply =
    | Unauthenticated(why: Authentication.AuthError)
    | RateLimited
    | NoPeer
    | Pong
    | BadEvent(refusal: EventLedger.Refusal)
    | Taken(duplicate: bool)

  /** The peer behind a link id, matched exactly. */
  function PeerOf(peers: seq<Peer>, linkID: string): Option<Peer> {
    if peers == [] then None
    else if peers[0].linkID == linkID then Some(peers[0])
    else PeerOf(peers[1..], linkID)
  }

  /** An event request as the ledger's pipeline sees it. */
  function AsTry(link: string, w: World): EventLedger.Try {
    match w.envelope
    case Err(why) => EventLedger.Try(link, "", w.now, Some(why), w.storeUp, w.ingests, w.forgets)
    case Ok(env) =>
      EventLedger.Try(link, env.eventID, w.now,
                      if w.rejecting then Some(EventLedger.NoCommercialPermission) else None,
                      w.storeUp, w.ingests, w.forgets)
  }

  function ReplyTo(out: EventLedger.Outcome): Reply {
    match out
    case Refused(why) => BadEvent(why)
    case Duplicate => Taken(true)
    case Ingested => Taken(false)
  }

  /** What an event that gets past the ledger does to its peer's claim. */
  function Heard(c: Claims.Hold, env: Envelope, demotes: bool, now: Time): Claims.Hold {
    var beaten := c.Hears(Claims.Beat(now));
    if !demotes then beaten
    else beaten.Hears(if env.cleared then Claims.Cleared(env.condition, now)
                      else Claims.Raised(env.condition, now))
  }

  /** Exactly what an event is answered: taken exactly once the engine took it, a
      duplicate exactly while its id is on the link's record, and else refused for what
      stood in its way. */
  lemma ReplyExactlyWhen(link: string, w: World, seen: EventLedger.Ledger, ttl: Duration)
    ensures var reply := ReplyTo(AsTry(link, w).Handle(seen, ttl).1);
            if w.envelope.Err? then reply == BadEvent(EventLedger.AtOnce(w.envelope.error))
            else if w.rejecting then reply == BadEvent(EventLedger.AtOnce(EventLedger.NoCommercialPermission))
            else if !w.storeUp then reply == BadEvent(EventLedger.StoreFault)
            else if EventLedger.OnRecord(seen, ttl, link, w.envelope.value.eventID, w.now) then reply == Taken(true)
            else if w.ingests then reply == Taken(false)
            else reply == BadEvent(EventLedger.IngestFailed)
  {
    EventLedger.AnsweredExactlyWhen(seen, ttl, AsTry(link, w));
  }

  /** What a genuine peer's request does to its claim: a ping nothing; a heartbeat is
      contact; and so is an event that is neither refused for its content nor a
      duplicate nor met by a store that is down, which then also raises or clears what
      the operator approved as demoting. */
  ghost predicate MovesTheClaim(route: Route, peer: Peer, w: World, seen: EventLedger.Ledger, ttl: Duration,
                                before: Option<Claims.Hold>, after: Option<Claims.Hold>) {
    if before.None? then after.None?
    else
      match route
      case Ping => after == before
      case Heartbeat =>
        && after == Some(before.value.Hears(Claims.Beat(w.now)))
        && after.value.lastBeat == Some(w.now) && after.value.demoting == before.value.demoting
      case Events =>
        if w.envelope.Err? || w.rejecting || !w.storeUp
           || EventLedger.OnRecord(seen, ttl, peer.linkID, w.envelope.value.eventID, w.now)
        then after == before
        else
          var env := w.envelope.value;
          && after == Some(Heard(before.value, env, env.condition in peer.demoting, w.now))
          && after.value.lastBeat == Some(w.now)
          && after.value.demoting
             == if env.condition !in peer.demoting then before.value.demoting
                else if env.cleared then before.value.demoting - {env.condition}
                else before.value.demoting + {env.condition}
  }

  class Receiver {
    const verifier: Authentication.Verifier
    const limiter: FixedWindows.Limiter
    const store: EventLedger.SeenStore
    /** How long an event id is remembered. */
    const seenFor: Duration
    var claims: map<string, Claims.Claim>
    /** Who was heard from, and when: the calls of the contact hook. */
    var contacts: seq<(string, Time)>
    /** The events handed to the engine and taken by it. */
    ghost var raised: seq<(string, string)>

    constructor (cs: map<string, Claims.Claim>, configured: Duration)
      ensures seenFor == if configured == 0 then EventLedger.DEFAULT_SEEN_FOR else configured
      ensures claims == cs && contacts == [] && raised == []
      ensures fresh(verifier) && fresh(limiter) && fresh(store)
      ensures verifier.nonces == map[] && limiter.counts == map[] && store.rows == map[]
    {
      verifier := new Authentication.Verifier();
      limiter := new FixedWindows.Limiter();
      store := new EventLedger.SeenStore();
      seenFor := if configured == 0 then EventLedger.DEFAULT_SEEN_FOR else configured;
      claims, contacts, raised := cs, [], [];
    }

    /** Each peer has a claim of its own. */
    ghost predicate Valid()
      reads this
    {
      forall a, b :: a in claims && b in claims && a != b ==> claims[a] != claims[b]
    }

    function Hold(slug: string): Option<Claims.Hold>
      reads this, claims.Values
    {
      if slug in claims then Some(claims[slug].Value()) else None
    }

    method Lookup(peers: seq<Peer>, linkID: string) returns (p: Option<Peer>)
      ensures p == PeerOf(peers, linkID)
    {
      for i := 0 to |peers|
        invariant PeerOf(peers, linkID) == PeerOf(peers[i..], linkID)
      {
        if peers[i].linkID == linkID {
          return Some(peers[i]);
        }
        assert peers[i..][1..] == peers[i + 1..];
      }
      return None;
    }

    /** The event pipeline: the ledger decides, the claim moves before the
        engine is asked, and what the engine refused is forgotten again. */
    method Events(peer: Peer, w: World) returns (reply: Reply)
      requires Valid()
      modifies this`raised, store, claims.Values
      ensures var (next, out) := AsTry(peer.linkID, w).Handle(old(store.rows), seenFor);
              && store.rows == next && reply == ReplyTo(out)
              && raised == old(raised)
                   + (if out.Ingested? then [(peer.linkID, AsTry(peer.linkID, w).id)] else [])
              && (old(Hold(peer.slug)).Some? && AsTry(peer.linkID, w).Records(old(store.rows), seenFor) ==>
                    && w.envelope.Ok?
                    && Hold(peer.slug) == Some(Heard(old(Hold(peer.slug)).value, w.envelope.value,
                                                     w.envelope.value.condition in peer.demoting, w.now)))
              && (!AsTry(peer.linkID, w).Records(old(store.rows), seenFor) ==>
                    Hold(peer.slug) == old(Hold(peer.slug)))
      ensures forall slug :: slug != peer.slug ==> Hold(slug) == old(Hold(slug))
    {
      if w.envelope.Err? {
        return BadEvent(EventLedger.AtOnce(w.envelope.error));
      }
      var env := w.envelope.value;
      if w.rejecting {
        return BadEvent(EventLedger.AtOnce(EventLedger.NoCommercialPermission));
      }
      var seen := store.SeenEvent(peer.linkID, env.eventID, w.now, seenFor, w.storeUp);
      if seen.None? {
        return BadEvent(EventLedger.StoreFault);
      }
      if seen.value {
        return Taken(true);
      }
      if peer.slug in claims {
        var c := claims[peer.slug];
        assert c in claims.Values;
        c.Heartbeat(w.now);
        c.Observe(env.condition, env.condition in peer.demoting, env.cleared, w.now);
      }
      if !w.ingests {
        store.ForgetEvent(peer.linkID, env.eventID, w.forgets);
        return BadEvent(EventLedger.IngestFailed);
      }
      raised := raised + [(peer.linkID, env.eventID)];
      return Taken(false);
    }

    /** What a genuine peer's request does, by its route. */
    method Act(route: Route, peer: Peer, w: World) returns (reply: Reply)
      requires Valid()
      modifies this`raised, store, claims.Values
      ensures !route.Events? ==> reply == Pong && store.rows == old(store.rows) && raised == old(raised)
      ensures route.Ping? ==> Hold(peer.slug) == old(Hold(peer.slug))
      ensures route.Heartbeat? && old(Hold(peer.slug)).Some? ==>
                Hold(peer.slug) == Some(old(Hold(peer.slug)).value.Hears(Claims.Beat(w.now)))
      ensures route.Events? ==>
                var (next, out) := AsTry(peer.linkID, w).Handle(old(store.rows), seenFor);
                store.rows == next && reply == ReplyTo(out)
      ensures MovesTheClaim(route, peer, w, old(store.rows), seenFor, old(Hold(peer.slug)), Hold(peer.slug))
      ensures forall slug :: slug != peer.slug ==> Hold(slug) == old(Hold(slug))
    {
      EventLedger.AnsweredExactlyWhen(store.rows, seenFor, AsTry(peer.linkID, w));
      match route
      case Ping =>
        return Pong;
      case Heartbeat =>
        if peer.slug in claims {
          assert claims[peer.slug] in claims.Values;
          claims[peer.slug].Heartbeat(w.now);
        }
        return Pong;
      case Events =>
        reply := Events(peer, w);
    }

    /** Authenticated, within its rate, and resolved to a peer; or why not. */
    method Admit(o: Authentication.Oracles, req: Authentication.Request, w: World)
      returns (r: Result<Peer, Reply>)
      modifies verifier, limiter
      ensures var (cache, verdict) := Authentication.Verified(o, old(verifier.nonces), w.creds, req, w.now);
              && verifier.nonces == cache
              && (verdict.Err? ==> r == Err(Unauthenticated(verdict.error)) && limiter.counts == old(limiter.counts))
              && (verdict.Ok? ==>
                    var (c, within) := FixedWindows.Limit(FixedWindows.PER_PEER_RATE, FixedWindows.RATE_WINDOW)
                                       .Admit(old(limiter.Entry(req.linkID)), w.now);
                    var peer := PeerOf(w.peers, req.linkID);
                    && limiter.counts == old(limiter.counts)[req.linkID := c]
                    && r == if !within then Err(RateLimited)
                            else if peer.None? then Err(NoPeer) else Ok(peer.value))
    {
      Authentication.AcceptedExactlyWhen(o, verifier.nonces, w.creds, req, w.now);
      var verdict := verifier.Verify(o, w.creds, req, w.now);
      if verdict.Err? {
        return Err(Unauthenticated(verdict.error));
      }
      var within := limiter.Allow(verdict.value.linkID, w.now, FixedWindows.PER_PEER_RATE,
                                  FixedWindows.RATE_WINDOW);
      if !within {
        return Err(RateLimited);
      }
      var found := Lookup(w.peers, verdict.value.linkID);
      return if found.None? then Err(NoPeer) else Ok(found.value);
    }

    /** Nothing is charged, counted or acted on before its own check has passed:
        a request that is not admitted leaves the contact record, the claims,
        the ledger and the engine as they were, and one that is not even
        authentic is not charged to the peer it names; while whatever a genuine
        peer sends, even an event refused for its content, is proof of life. */
    method Serve(o: Authentication.Oracles, route: Route, req: Authentication.Request, w: World)
      returns (reply: Reply)
      requires Valid()
      modifies this`contacts, this`raised, verifier, limiter, store, claims.Values
      ensures reply.Unauthenticated? <==>
                Authentication.Verified(o, old(verifier.nonces), w.creds, req, w.now).1.Err?
      ensures reply.Unauthenticated? ==> limiter.counts == old(limiter.counts)
      ensures reply.Unauthenticated? || reply.RateLimited? || reply.NoPeer? ==>
                && contacts == old(contacts) && store.rows == old(store.rows) && raised == old(raised)
                && forall slug :: Hold(slug) == old(Hold(slug))
      ensures !reply.Unauthenticated? && !reply.RateLimited? && !reply.NoPeer? ==>
                && PeerOf(w.peers, req.linkID).Some?
                && contacts == old(contacts) + [(PeerOf(w.peers, req.linkID).value.slug, w.now)]
                && (forall slug :: slug != PeerOf(w.peers, req.linkID).value.slug ==> Hold(slug) == old(Hold(slug)))
                && (route.Events? ==>
                      var (next, out) := AsTry(req.linkID, w).Handle(old(store.rows), seenFor);
                      store.rows == next && reply == ReplyTo(out))
                && (!route.Events? ==> reply == Pong && store.rows == old(store.rows) && raised == old(raised))
      ensures !reply.Unauthenticated? && !reply.RateLimited? && !reply.NoPeer? ==>
                var peer := PeerOf(w.peers, req.linkID).value;
                MovesTheClaim(route, peer, w, old(store.rows), seenFor, old(Hold(peer.slug)), Hold(peer.slug))
    {
      var admitted := Admit(o, req, w);
      if admitted.Err? {
        return admitted.error;
      }
      PeerIsExact(w.peers, req.linkID);
      contacts := contacts + [(admitted.value.slug, w.now)];
      reply := Act(route, admitted.value, w);
    }
  }

  lemma {:induction false} PeerIsExact(peers: seq<Peer>, linkID: string)
    ensures match PeerOf(peers, linkID)
            case Some(p) => p in peers && p.linkID == linkID
            case None => forall p :: p in peers ==> p.linkID != linkID
  {
    if peers != [] && peers[0].linkID != linkID {
      PeerIsExact(peers[1..], linkID);
      assert peers == [peers[0]] + peers[1..];
    }
  }
}
