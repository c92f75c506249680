/** Request authentication on the peer link, and its replay cache.

    The keyed hash, the body hash, upper-casing and the reading of the scheme
    and of the decimal stamp are functions the model is given. */
module Authentication {
  import opened Base
  import opened Base64
  import opened Text

  const WINDOW: Duration := 300 * SECOND
  const MAX_NONCES: nat := 8192

  datatype AuthError = NoSignature | Malformed | Skew | BadSignature | Replay | NonceFull

  datatype Credential = Credential(linkID: string, key: seq<Byte>)

  datatype Request = Request(
    verb: string, path: string, linkID: string, timestamp: string, nonce: string,
    authorization: string, body: seq<Byte>)

  datatype Oracles = Oracles(
    signatureIn: string -> Option<string>, secondsIn: string -> Option<int>,
    mac: (seq<Byte>, string) -> seq<Byte>, upper: string -> string, hexHash: seq<Byte> -> string)
  {
    /** The exact text both ends sign. */
    function Canonical(linkID: string, req: Request): string {
      "xtremission-link/v1" + "\n" + (upper(req.verb) + "\n" + (req.path + "\n" + (linkID + "\n"
      + (req.timestamp + "\n" + (req.nonce + "\n" + hexHash(req.body))))))
    }

    predicate Matches(c: Credential, req: Request, given: seq<Byte>) {
      c.linkID == req.linkID && mac(c.key, Canonical(c.linkID, req)) == given
    }

    /** The last credential that matches. */
    function LastMatch(creds: seq<Credential>, req: Request, given: seq<Byte>): Option<Credential> {
      if creds == [] then None
      else if Matches(creds[|creds| - 1], req, given) then Some(creds[|creds| - 1])
      else LastMatch(creds[..|creds| - 1], req, given)
    }
  }

  // ---- What is signed -----------------------------------------------------------

  predicate OneLine(s: string) {
    '\n' !in s
  }

  function FirstLine(s: string): string {
    if s == [] || s[0] == '\n' then "" else [s[0]] + FirstLine(s[1..])
  }

  lemma {:induction false} FirstLineOf(a: string, x: string)
    requires OneLine(a)
    ensures FirstLine(a + "\n" + x) == a
  {
    if a == [] {
      assert a + "\n" + x == "\n" + x;
    } else {
      FirstLineOf(a[1..], x);
      assert (a + "\n" + x)[1..] == a[1..] + "\n" + x;
    }
  }

  lemma LineEndsOnce(a: string, x: string, b: string, y: string)
    requires OneLine(a) && OneLine(b) && a + "\n" + x == b + "\n" + y
    ensures a == b && x == y
  {
    FirstLineOf(a, x);
    FirstLineOf(b, y);
    assert x == (a + "\n" + x)[|a| + 1..] && y == (b + "\n" + y)[|b| + 1..];
  }

  predicate LinesOnly(o: Oracles, req: Request) {
    && OneLine(o.upper(req.verb)) && OneLine(req.path) && OneLine(req.linkID)
    && OneLine(req.timestamp) && OneLine(req.nonce)
  }

  /** Every field that changes what a request means is in the text that is
      signed, and can be read back from it: two requests signed alike have the
      same method, path, link, stamp and nonce, and the same body hash. */
  lemma CanonicalDeterminesTheRequest(o: Oracles, a: Request, b: Request)
    requires LinesOnly(o, a) && LinesOnly(o, b)
    requires o.Canonical(a.linkID, a) == o.Canonical(b.linkID, b)
    ensures o.upper(a.verb) == o.upper(b.verb) && a.path == b.path && a.linkID == b.linkID
    ensures a.timestamp == b.timestamp && a.nonce == b.nonce && o.hexHash(a.body) == o.hexHash(b.body)
  {
    var a5, b5 := o.hexHash(a.body), o.hexHash(b.body);
    var a4, b4 := a.nonce + "\n" + a5, b.nonce + "\n" + b5;
    var a3, b3 := a.timestamp + "\n" + a4, b.timestamp + "\n" + b4;
    var a2, b2 := a.linkID + "\n" + a3, b.linkID + "\n" + b3;
    var a1, b1 := a.path + "\n" + a2, b.path + "\n" + b2;
    LineEndsOnce("xtremission-link/v1", o.upper(a.verb) + "\n" + a1, "xtremission-link/v1",
                 o.upper(b.verb) + "\n" + b1);
    LineEndsOnce(o.upper(a.verb), a1, o.upper(b.verb), b1);
    LineEndsOnce(a.path, a2, b.path, b2);
    LineEndsOnce(a.linkID, a3, b.linkID, b3);
    LineEndsOnce(a.timestamp, a4, b.timestamp, b4);
    LineEndsOnce(a.nonce, a5, b.nonce, b5);
  }

  // ---- The replay cache -----------------------------------------------------------

  type Nonces = map<string, Time>
  type Cache = map<string, Nonces>

  function Seen(cache: Cache, linkID: string): Nonces {
    if linkID in cache then cache[linkID] else map[]
  }

  /** Expiry is by the stamp the request claimed, not by when it came. */
  function Unexpired(seen: Nonces, now: Time): Nonces {
    map n | n in seen && now - seen[n] <= WINDOW :: seen[n]
  }

  function Consumed(cache: Cache, linkID: string, nonce: string, stamped: Time, now: Time)
    : (Cache, Option<AuthError>)
  {
    var seen := Unexpired(Seen(cache, linkID), now);
    if nonce in seen then (cache[linkID := seen], Some(Replay))
    else if |seen| >= MAX_NONCES then (cache[linkID := seen], Some(NonceFull))
    else (cache[linkID := seen[nonce := stamped]], None)
  }

  /** The stamp is close enough to our clock, either way. */
  predicate InWindow(stamped: Time, now: Time) {
    -WINDOW <= now - stamped <= WINDOW
  }

  /** What can be told of a request before any credential is looked at: the
      decoded signature and the stamp. */
  function Shape(o: Oracles, req: Request, now: Time): Result<(seq<Byte>, Time), AuthError> {
    var sig := o.signatureIn(req.authorization);
    if sig.None? then Err(NoSignature)
    else if req.linkID == "" || req.nonce == "" || req.timestamp == "" then Err(Malformed)
    else
      var secs := o.secondsIn(TrimSpace(req.timestamp));
      if secs.None? then Err(Malformed)
      else if !InWindow(secs.value * SECOND, now) then Err(Skew)
      else
        var given := DecodeDigest(sig.value);
        if given.None? then Err(Malformed) else Ok((given.value, secs.value * SECOND))
  }

  function Verified(o: Oracles, cache: Cache, creds: seq<Credential>, req: Request, now: Time)
    : (Cache, Result<Credential, AuthError>)
  {
    match Shape(o, req, now)
    case Err(e) => (cache, Err(e))
    case Ok((given, stamped)) =>
      match o.LastMatch(creds, req, given)
      case None => (cache, Err(BadSignature))
      case Some(found) =>
        var (next, err) := Consumed(cache, found.linkID, req.nonce, stamped, now);
        (next, if err.None? then Ok(found) else Err(err.value))
  }

  /** The stamp a request claims, as far as it can be read. */
  function StampOf(o: Oracles, req: Request): Option<Time> {
    match o.secondsIn(TrimSpace(req.timestamp))
    case None => None
    case Some(secs) => Some(secs * SECOND)
  }

  // ---- One request ------------------------------------------------------------------

  lemma {:induction false} LastMatchMatches(o: Oracles, creds: seq<Credential>, req: Request, given: seq<Byte>)
    ensures match o.LastMatch(creds, req, given)
            case None => forall c :: c in creds ==> !o.Matches(c, req, given)
            case Some(c) => c in creds && o.Matches(c, req, given)
  {
    if creds != [] {
      LastMatchMatches(o, creds[..|creds| - 1], req, given);
      assert creds == creds[..|creds| - 1] + [creds[|creds| - 1]];
    }
  }

  ghost predicate Genuine(o: Oracles, creds: seq<Credential>, req: Request, now: Time) {
    && Shape(o, req, now).Ok?
    && exists c :: c in creds && o.Matches(c, req, Shape(o, req, now).value.0)
  }

  /** A request is let in exactly when it is well formed, in the window, signed
      by a paired key for its own link id, and its nonce is neither remembered
      nor one too many; and then under a credential of that very link. */
  lemma AcceptedExactlyWhen(o: Oracles, cache: Cache, creds: seq<Credential>, req: Request, now: Time)
    ensures var seen := Unexpired(Seen(cache, req.linkID), now);
            Verified(o, cache, creds, req, now).1.Ok? <==>
              Genuine(o, creds, req, now) && req.nonce !in seen && |seen| < MAX_NONCES
    ensures Verified(o, cache, creds, req, now).1.Ok? ==>
              var c := Verified(o, cache, creds, req, now).1.value;
              c in creds && o.Matches(c, req, Shape(o, req, now).value.0)
  {
    if Shape(o, req, now).Ok? {
      LastMatchMatches(o, creds, req, Shape(o, req, now).value.0);
    }
  }

  /** A request that can be read: a signature, all three fields, a stamp in seconds, and
      a digest. */
  ghost predicate Readable(o: Oracles, req: Request, secs: int, given: seq<Byte>) {
    && o.signatureIn(req.authorization).Some? && req.linkID != "" && req.nonce != "" && req.timestamp != ""
    && o.secondsIn(TrimSpace(req.timestamp)) == Some(secs)
    && DecodeDigest(o.signatureIn(req.authorization).value) == Some(given)
  }

  /** The clock is within five minutes of the stamp, before it or after. */
  predicate Near(secs: int, now: Time) {
    now - 300_000_000_000 <= secs * 1_000_000_000 <= now + 300_000_000_000
  }

  ghost predicate SignedByOne(o: Oracles, creds: seq<Credential>, req: Request, given: seq<Byte>) {
    exists i :: 0 <= i < |creds| && creds[i].linkID == req.linkID
                && o.mac(creds[i].key, o.Canonical(req.linkID, req)) == given
  }

  /** The link has used this nonce under a stamp that is not five minutes old yet. */
  ghost predicate UsedLately(cache: Cache, linkID: string, nonce: string, now: Time) {
    linkID in cache && nonce in cache[linkID] && now - cache[linkID][nonce] <= 300_000_000_000
  }

  /** Exactly what a request is answered, by its own fields, the paired keys and what
      the link has used lately; checked in this order. */
  lemma VerdictExactlyWhen(o: Oracles, cache: Cache, creds: seq<Credential>, req: Request, now: Time, secs: int,
                           given: seq<Byte>)
    requires Readable(o, req, secs, given)
    ensures var (next, out) := Verified(o, cache, creds, req, now);
            var signed := Near(secs, now) && SignedByOne(o, creds, req, given);
            var seen := Unexpired(Seen(cache, req.linkID), now);
            && (out == Err(Skew) <==> !Near(secs, now))
            && (out == Err(BadSignature) <==> Near(secs, now) && !SignedByOne(o, creds, req, given))
            && (out == Err(Replay) <==> signed && UsedLately(cache, req.linkID, req.nonce, now))
            && (out == Err(NonceFull) <==>
                  signed && !UsedLately(cache, req.linkID, req.nonce, now) && |seen| >= 8192)
            && (out.Ok? <==> signed && !UsedLately(cache, req.linkID, req.nonce, now) && |seen| < 8192)
            && (out.Ok? ==> req.linkID in next && req.nonce in next[req.linkID]
                            && next[req.linkID][req.nonce] == secs * 1_000_000_000)
  {
    LastMatchMatches(o, creds, req, given);
    if SignedByOne(o, creds, req, given) {
      var i :| 0 <= i < |creds| && creds[i].linkID == req.linkID
               && o.mac(creds[i].key, o.Canonical(req.linkID, req)) == given;
      assert creds[i] in creds && o.Matches(creds[i], req, given);
    }
    if c :| c in creds && o.Matches(c, req, given) {
      var i :| 0 <= i < |creds| && creds[i] == c;
    }
  }

  /** A request that cannot be read is refused for what is missing. */
  lemma UnreadableIsRefused(o: Oracles, cache: Cache, creds: seq<Credential>, req: Request, now: Time)
    requires forall secs: int, given: seq<Byte> :: !Readable(o, req, secs, given)
    ensures var (next, out) := Verified(o, cache, creds, req, now);
            && next == cache && (out == Err(NoSignature) || out == Err(Malformed) || out == Err(Skew))
            && (out == Err(NoSignature) <==> o.signatureIn(req.authorization).None?)
            && (out == Err(Skew) <==>
                  && o.signatureIn(req.authorization).Some?
                  && req.linkID != "" && req.nonce != "" && req.timestamp != ""
                  && o.secondsIn(TrimSpace(req.timestamp)).Some?
                  && !Near(o.secondsIn(TrimSpace(req.timestamp)).value, now))
  {
    var sig, secs := o.signatureIn(req.authorization), o.secondsIn(TrimSpace(req.timestamp));
    if sig.Some? && secs.Some? && DecodeDigest(sig.value).Some? {
      assert !Readable(o, req, secs.value, DecodeDigest(sig.value).value);
    }
  }

  /** Whoever is not genuine leaves no mark: it cannot fill anybody's cache. And
      a genuine peer only ever touches its own. */
  lemma OnlyTheGenuineLeaveAMark(o: Oracles, cache: Cache, creds: seq<Credential>, req: Request, now: Time)
    ensures !Genuine(o, creds, req, now) ==> Verified(o, cache, creds, req, now).0 == cache
    ensures forall id :: id != req.linkID ==> Seen(Verified(o, cache, creds, req, now).0, id) == Seen(cache, id)
  {
    if Shape(o, req, now).Ok? {
      LastMatchMatches(o, creds, req, Shape(o, req, now).value.0);
    }
  }

  /** The spelling of a genuine signature changes nothing at all. */
  lemma SpellingOfASignatureIsNothing(o: Oracles, cache: Cache, creds: seq<Credential>, req: Request, other: Request,
                                      digest: seq<Byte>, url: bool, padded: bool, url2: bool, padded2: bool, now: Time)
    requires digest != []
    requires o.signatureIn(req.authorization) == Some(Spelling(digest, url, padded))
    requires other == req.(authorization := other.authorization)
    requires o.signatureIn(other.authorization) == Some(Spelling(digest, url2, padded2))
    ensures Verified(o, cache, creds, other, now) == Verified(o, cache, creds, req, now)
  {
    SpellingsDecode(digest, url, padded);
    SpellingsDecode(digest, url2, padded2);
    SameMatches(o, creds, req, other, digest);
  }

  lemma SpellingsDecode(digest: seq<Byte>, url: bool, padded: bool)
    requires digest != []
    ensures DecodeDigest(Spelling(digest, url, padded)) == Some(digest)
  {
    EverySpellingReadsTheSame(digest, url, padded, "", "");
    assert "" + Spelling(digest, url, padded) + "" == Spelling(digest, url, padded);
  }

  lemma {:induction false} SameMatches(o: Oracles, creds: seq<Credential>, req: Request, other: Request,
                                       given: seq<Byte>)
    requires other == req.(authorization := other.authorization)
    ensures o.LastMatch(creds, other, given) == o.LastMatch(creds, req, given)
  {
    if creds != [] {
      SameMatches(o, creds[..|creds| - 1], req, other, given);
      assert o.Canonical(creds[|creds| - 1].linkID, other) == o.Canonical(creds[|creds| - 1].linkID, req);
    }
  }

  // ---- Whole runs -----------------------------------------------------------------------

  /** One request and the verifier's reading of the clock; the paired
      credentials may change from one to the next. */
  datatype Arrival = Arrival(creds: seq<Credential>, req: Request, now: Time)

  function CacheAfter(o: Oracles, cache: Cache, a: Arrival): Cache {
    Verified(o, cache, a.creds, a.req, a.now).0
  }

  /** Whether the i-th request of the run is let in. */
  predicate AcceptedAt(o: Oracles, cache: Cache, run: seq<Arrival>, i: nat)
    requires i < |run|
    decreases i
  {
    if i == 0 then Verified(o, cache, run[0].creds, run[0].req, run[0].now).1.Ok?
    else AcceptedAt(o, CacheAfter(o, cache, run[0]), run[1..], i - 1)
  }

  ghost predicate ClockNeverFalls(run: seq<Arrival>) {
    forall i, j :: 0 <= i < j < |run| ==> run[i].now <= run[j].now
  }

  /** The cache still knows the nonce, under its own stamp, for as long as that
      stamp could pass the skew check. */
  predicate Remembers(cache: Cache, linkID: string, nonce: string, stamped: Time, now: Time) {
    now - stamped <= WINDOW ==>
      nonce in Seen(cache, linkID) && Seen(cache, linkID)[nonce] == stamped
  }

  lemma AcceptanceIsRemembered(o: Oracles, cache: Cache, a: Arrival)
    requires Verified(o, cache, a.creds, a.req, a.now).1.Ok?
    ensures StampOf(o, a.req).Some? && InWindow(StampOf(o, a.req).value, a.now)
    ensures Remembers(Verified(o, cache, a.creds, a.req, a.now).0, a.req.linkID, a.req.nonce,
                      StampOf(o, a.req).value, a.now)
  {
    AcceptedExactlyWhen(o, cache, a.creds, a.req, a.now);
  }

  lemma MemoryLasts(o: Oracles, cache: Cache, a: Arrival, linkID: string, nonce: string, stamped: Time, now: Time)
    requires Remembers(cache, linkID, nonce, stamped, now) && now <= a.now
    ensures Remembers(Verified(o, cache, a.creds, a.req, a.now).0, linkID, nonce, stamped, a.now)
    ensures Verified(o, cache, a.creds, a.req, a.now).1.Ok? && a.req.linkID == linkID && a.req.nonce == nonce ==>
              a.now - stamped > WINDOW
  {
    OnlyTheGenuineLeaveAMark(o, cache, a.creds, a.req, a.now);
    AcceptedExactlyWhen(o, cache, a.creds, a.req, a.now);
    if Shape(o, a.req, a.now).Ok? {
      LastMatchMatches(o, a.creds, a.req, Shape(o, a.req, a.now).value.0);
    }
  }

  /** As long as the first stamp is in the window, its nonce is a replay. */
  lemma {:induction false} AcceptedAgainOnlyLater(o: Oracles, cache: Cache, run: seq<Arrival>, j: nat,
                                                  linkID: string, nonce: string, stamped: Time, now: Time)
    requires Remembers(cache, linkID, nonce, stamped, now)
    requires j < |run| && ClockNeverFalls(run) && now <= run[0].now
    requires AcceptedAt(o, cache, run, j) && run[j].req.linkID == linkID && run[j].req.nonce == nonce
    ensures run[j].now - stamped > WINDOW
    ensures StampOf(o, run[j].req).Some? && stamped < StampOf(o, run[j].req).value
    decreases j
  {
    MemoryLasts(o, cache, run[0], linkID, nonce, stamped, now);
    if j == 0 {
      AcceptanceIsRemembered(o, cache, run[0]);
    } else {
      AcceptedAgainOnlyLater(o, CacheAfter(o, cache, run[0]), run[1..], j - 1, linkID, nonce, stamped, run[0].now);
    }
  }

  /** Nothing signed is ever let in twice. If a link's nonce is accepted again
      in any run whose clock does not step back, the first one's stamp had by
      then left the window, and the second carries a later stamp: so no link
      id, stamp and nonce are accepted together more than once. */
  lemma {:induction false} NoRequestIsAcceptedTwice(o: Oracles, cache: Cache, run: seq<Arrival>, i: nat, j: nat)
    requires i < j < |run| && ClockNeverFalls(run)
    requires AcceptedAt(o, cache, run, i) && AcceptedAt(o, cache, run, j)
    requires run[i].req.linkID == run[j].req.linkID && run[i].req.nonce == run[j].req.nonce
    ensures StampOf(o, run[i].req).Some? && StampOf(o, run[j].req).Some?
    ensures run[j].now - StampOf(o, run[i].req).value > WINDOW
    ensures StampOf(o, run[i].req).value < StampOf(o, run[j].req).value
    decreases i
  {
    var next := CacheAfter(o, cache, run[0]);
    if i == 0 {
      AcceptanceIsRemembered(o, cache, run[0]);
      AcceptedAgainOnlyLater(o, next, run[1..], j - 1, run[0].req.linkID, run[0].req.nonce,
                             StampOf(o, run[0].req).value, run[0].now);
    } else {
      NoRequestIsAcceptedTwice(o, next, run[1..], i - 1, j - 1);
    }
  }

  ghost predicate CacheBounded(cache: Cache) {
    forall id :: id in cache ==> |cache[id]| <= MAX_NONCES
  }

  lemma UnexpiredIsNoLarger(seen: Nonces, now: Time)
    ensures |Unexpired(seen, now)| <= |seen|
  {
    SubsetIsNoLarger(Unexpired(seen, now).Keys, seen.Keys);
  }

  lemma {:induction false} SubsetIsNoLarger<T>(a: set<T>, b: set<T>)
    requires a <= b
    ensures |a| <= |b|
  {
    if a != {} {
      var x :| x in a;
      SubsetIsNoLarger(a - {x}, b - {x});
    }
  }

  /** Each link's table stays within its cap, and a nonce leaves it only when a
      request carrying its stamp would be refused as skewed at that instant. */
  lemma CacheStaysBounded(o: Oracles, cache: Cache, a: Arrival)
    requires CacheBounded(cache)
    ensures var next := Verified(o, cache, a.creds, a.req, a.now).0;
            && CacheBounded(next)
            && forall id, n :: n in Seen(cache, id) && n !in Seen(next, id) ==>
                 !InWindow(Seen(cache, id)[n], a.now)
  {
    OnlyTheGenuineLeaveAMark(o, cache, a.creds, a.req, a.now);
    UnexpiredIsNoLarger(Seen(cache, a.req.linkID), a.now);
    if Shape(o, a.req, a.now).Ok? {
      LastMatchMatches(o, a.creds, a.req, Shape(o, a.req, a.now).value.0);
    }
  }

  // ---- The verifier -----------------------------------------------------------------------

  class Verifier {
    var nonces: Cache

    constructor ()
      ensures nonces == map[]
    {
      nonces := map[];
    }

    method UseNonce(linkID: string, nonce: string, stamped: Time, now: Time) returns (err: Option<AuthError>)
      modifies this
      ensures (nonces, err) == Consumed(old(nonces), linkID, nonce, stamped, now)
    {
      var all := if linkID in nonces then nonces[linkID] else map[];
      var seen := all;
      var left := all.Keys;
      while left != {}
        invariant left <= all.Keys && seen.Keys <= all.Keys
        invariant forall n :: n in seen ==> seen[n] == all[n]
        invariant forall n :: n in all ==> (n in seen <==> n in left || now - all[n] <= WINDOW)
        decreases left
      {
        var n :| n in left;
        left := left - {n};
        if now - all[n] > WINDOW {
          seen := seen - {n};
        }
      }
      assert seen == Unexpired(all, now);
      nonces := nonces[linkID := seen];
      if nonce in seen {
        return Some(Replay);
      }
      if |seen| >= MAX_NONCES {
        return Some(NonceFull);
      }
      seen := seen[nonce := stamped];
      assert nonces[linkID := seen] == old(nonces)[linkID := seen];
      nonces := nonces[linkID := seen];
      return None;
    }

    /** The scan has no early exit; the last match is the one kept. */
    method Verify(o: Oracles, creds: seq<Credential>, req: Request, now: Time)
      returns (r: Result<Credential, AuthError>)
      modifies this
      ensures (nonces, r) == Verified(o, old(nonces), creds, req, now)
    {
      var sig := o.signatureIn(req.authorization);
      if sig.None? {
        return Err(NoSignature);
      }
      if req.linkID == "" || req.nonce == "" || req.timestamp == "" {
        return Err(Malformed);
      }
      var secs := o.secondsIn(TrimSpace(req.timestamp));
      if secs.None? {
        return Err(Malformed);
      }
      var stamped := secs.value * SECOND;
      var d := now - stamped;
      if d > WINDOW || d < -WINDOW {
        return Err(Skew);
      }
      var given := DecodeDigest(sig.value);
      if given.None? {
        return Err(Malformed);
      }
      var found: Option<Credential> := None;
      for i := 0 to |creds|
        invariant found == o.LastMatch(creds[..i], req, given.value)
        invariant nonces == old(nonces)
      {
        var c := creds[i];
        var want := o.mac(c.key, o.Canonical(c.linkID, req));
        if c.linkID == req.linkID && want == given.value {
          found := Some(c);
        }
        assert creds[..i + 1][..i] == creds[..i];
      }
      assert creds[..|creds|] == creds;
      if found.None? {
        return Err(BadSignature);
      }
      var err := UseNonce(found.value.linkID, req.nonce, stamped, now);
      if err.Some? {
        return Err(err.value);
      }
      return Ok(found.value);
    }
  }
}
