/** Pairing: a short code, offered for ten minutes, that admits one peer.

    The random code, the keyed proof, the fingerprint's normal form and the
    manifest's own validation are given; letters are upper-cased in ASCII. */
module Pairing {
  import opened Base
  import opened Base64
  import opened Text

  const CODE_LENGTH: nat := 12
  const CODE_TTL: Duration := 10 * MINUTE
  const MAX_CODE_ATTEMPTS: nat := 5

  /** Crockford's base32 alphabet. */
  predicate Crockford(c: char) {
    '0' <= c <= '9' || ('A' <= c <= 'Z' && c != 'I' && c != 'L' && c != 'O' && c != 'U')
  }

  /** Ten digits and twenty-two letters. */
  lemma TheAlphabet(c: char)
    ensures Crockford(c) <==> c in "0123456789ABCDEFGHJKMNPQRSTVWXYZ"
  {
  }

  // ---- Codes as people type them ---------------------------------------------------

  /** What one typed character reads as: nothing for grouping, and the digit it
      was mistaken for, for the letters the alphabet leaves out. */
  function Reading(c: char): string {
    if c == '-' || c == ' ' then ""
    else if c == 'I' || c == 'L' then "1"
    else if c == 'O' then "0"
    else [c]
  }

  function Readings(v: string): string {
    if v == [] then "" else Reading(UpperChar(v[0])) + Readings(v[1..])
  }

  function NormaliseCode(v: string): string {
    Readings(TrimSpace(v))
  }

  function FormatCode(code: string): string {
    if |code| <= 4 then code else code[..4] + "-" + FormatCode(code[4..])
  }

  predicate IsCode(code: string) {
    forall i :: 0 <= i < |code| ==> Crockford(code[i])
  }

  /** The text a person may type for a code: any grouping, either case, and for
      a one or a nought the letters that look like it. */
  predicate LooksLike(typed: char, c: char) {
    || UpperChar(typed) == c
    || (c == '1' && (UpperChar(typed) == 'I' || UpperChar(typed) == 'L'))
    || (c == '0' && UpperChar(typed) == 'O')
  }

  predicate TypedFor(typed: string, code: string)
    decreases typed
  {
    if typed == [] then code == []
    else
      || ((typed[0] == '-' || typed[0] == ' ') && TypedFor(typed[1..], code))
      || (code != [] && LooksLike(typed[0], code[0]) && TypedFor(typed[1..], code[1..]))
  }

  lemma CodeLetters(c: char)
    requires Crockford(c)
    ensures !IsSpace(c) && UpperChar(c) == c && Reading(c) == [c] && LooksLike(c, c)
  {
  }

  lemma {:induction false} TypedReadsBack(typed: string, code: string)
    requires IsCode(code) && TypedFor(typed, code)
    ensures Readings(typed) == code
    decreases typed
  {
    if typed != [] {
      if (typed[0] == '-' || typed[0] == ' ') && TypedFor(typed[1..], code) {
        TypedReadsBack(typed[1..], code);
      } else {
        CodeLetters(code[0]);
        assert IsCode(code[1..]);
        TypedReadsBack(typed[1..], code[1..]);
        assert Reading(UpperChar(typed[0])) == [code[0]];
        assert [code[0]] + code[1..] == code;
      }
    }
  }

  lemma {:induction false} TrimmedIsTyped(typed: string, code: string)
    requires IsCode(code) && TypedFor(typed, code)
    ensures TypedFor(TrimLeft(typed), code)
    decreases typed
  {
    if typed != [] && IsSpace(typed[0]) {
      if code != [] {
        CodeLetters(code[0]);
      }
      TrimmedIsTyped(typed[1..], code);
    }
  }

  lemma {:induction false} TailTyped(typed: string, code: string)
    requires IsCode(code) && TypedFor(typed, code) && typed != [] && IsSpace(typed[|typed| - 1])
    ensures TypedFor(typed[..|typed| - 1], code)
    decreases typed
  {
    var less := typed[..|typed| - 1];
    if code != [] {
      CodeLetters(code[0]);
    }
    if |typed| > 1 {
      assert less[1..] == typed[1..][..|typed| - 2];
      if (typed[0] == '-' || typed[0] == ' ') && TypedFor(typed[1..], code) {
        TailTyped(typed[1..], code);
      } else {
        assert IsCode(code[1..]);
        TailTyped(typed[1..], code[1..]);
      }
    }
  }

  lemma {:induction false} TrimRightTyped(typed: string, code: string)
    requires IsCode(code) && TypedFor(typed, code)
    ensures TypedFor(TrimRight(typed), code)
    decreases typed
  {
    if typed != [] && IsSpace(typed[|typed| - 1]) {
      TailTyped(typed, code);
      TrimRightTyped(typed[..|typed| - 1], code);
    }
  }

  /** What a person types for a code is that code: grouped or not, in either
      case, with the look-alikes swapped and blanks around it. */
  lemma TypedCodeIsTheCode(typed: string, code: string)
    requires IsCode(code) && TypedFor(typed, code)
    ensures NormaliseCode(typed) == code
  {
    TrimmedIsTyped(typed, code);
    TrimRightTyped(TrimLeft(typed), code);
    TypedReadsBack(TrimSpace(typed), code);
  }

  lemma {:induction false} FormattedIsTyped(code: string)
    requires IsCode(code)
    ensures TypedFor(FormatCode(code), code)
    decreases |code|
  {
    if |code| <= 4 {
      PlainIsTyped(code);
    } else {
      var grouped := "-" + FormatCode(code[4..]);
      FormattedIsTyped(code[4..]);
      assert grouped[1..] == FormatCode(code[4..]);
      PrefixIsTyped(code[..4], grouped, code[4..]);
      assert code[..4] + code[4..] == code && code[..4] + grouped == FormatCode(code);
    }
  }

  lemma {:induction false} PrefixIsTyped(a: string, typed: string, code: string)
    requires IsCode(a) && TypedFor(typed, code)
    ensures TypedFor(a + typed, a + code)
    decreases a
  {
    if a == [] {
      assert a + typed == typed && a + code == code;
    } else {
      CodeLetters(a[0]);
      assert IsCode(a[1..]);
      PrefixIsTyped(a[1..], typed, code);
      var longTyped, longCode := a + typed, a + code;
      assert longTyped[1..] == a[1..] + typed && longCode[1..] == a[1..] + code;
      assert LooksLike(longTyped[0], longCode[0]);
    }
  }

  lemma PlainIsTyped(code: string)
    requires IsCode(code)
    ensures TypedFor(code, code)
  {
    PrefixIsTyped(code, "", "");
    assert code + "" == code;
  }

  /** Round trip: the grouped form shown on the screen reads back as the code. */
  lemma FormatReadsBack(code: string)
    requires IsCode(code)
    ensures NormaliseCode(FormatCode(code)) == code
  {
    FormattedIsTyped(code);
    TypedCodeIsTheCode(FormatCode(code), code);
  }

  // ---- One offer --------------------------------------------------------------------

  /** A pairing request. Its manifest is judged elsewhere. */
  datatype Request = Request(slug: string, fingerprint: string, nonce: string, proof: string, manifestOk: bool)

  datatype Answer =
    | Paired(linkID: string)
    | NoPairing
    | CodeVoided
    | CodeUsed
    | CodeExpired
    | OtherFingerprint
    | ManifestNeeded
    | BadProof
    | MintFailed

  /** What the model is given: the keyed proof of the normalised code, the
      fingerprint's normal form and this product's own fingerprint. */
  datatype Oracles = Oracles(
    mac: (string, string, string, string, string) -> seq<Byte>, normal: string -> string, own: string)
  {
    function Proof(code: string, role: string, party: string, nonce: string): seq<Byte> {
      mac(NormaliseCode(code), role, party, own, nonce)
    }
  }

  datatype Offer = Offer(code: string, offered: Time, attempts: nat, used: bool, voided: bool) {
    /** mint is the fresh credential's link id, or a failure to make one. */
    function Complete(o: Oracles, req: Request, now: Time, mint: Option<string>): (Offer, Answer) {
      if code == "" then (this, NoPairing)
      else if voided then (this, CodeVoided)
      else if used then (this, CodeUsed)
      else if now - offered > CODE_TTL then (this, CodeExpired)
      else if attempts >= MAX_CODE_ATTEMPTS then (this.(voided := true), CodeVoided)
      else if o.normal(req.fingerprint) != o.own then (this, OtherFingerprint)
      else if !req.manifestOk then (this, ManifestNeeded)
      else if !SameDigest(o.Proof(code, "client", req.slug, req.nonce), req.proof) then
        (this.(attempts := attempts + 1, voided := attempts + 1 >= MAX_CODE_ATTEMPTS), BadProof)
      else if mint.None? then (this, MintFailed)
      else (this.(used := true), Paired(mint.value))
    }

    function Cancel(): Offer {
      this.(code := "", used := false, voided := true)
    }
  }

  function Fresh(code: string, now: Time): Offer {
    Offer(code, now, 0, false, false)
  }

  /** Everything that reaches one offer. */
  datatype Call = Request(req: Request, now: Time, mint: Option<string>) | Withdraw

  function Step(o: Oracles, p: Offer, c: Call): (Offer, Option<Answer>) {
    match c
    case Request(req, now, mint) =>
      var (next, answer) := p.Complete(o, req, now, mint);
      (next, Some(answer))
    case Withdraw => (p.Cancel(), None)
  }

  function After(o: Oracles, p: Offer, calls: seq<Call>): Offer {
    if calls == [] then p else Step(o, After(o, p, calls[..|calls| - 1]), calls[|calls| - 1]).0
  }

  function Answers(o: Oracles, p: Offer, calls: seq<Call>): seq<Answer> {
    if calls == [] then []
    else
      var before := calls[..|calls| - 1];
      match Step(o, After(o, p, before), calls[|calls| - 1]).1
      case None => Answers(o, p, before)
      case Some(a) => Answers(o, p, before) + [a]
  }

  function PairedCount(answers: seq<Answer>): nat {
    if answers == [] then 0
    else PairedCount(answers[..|answers| - 1]) + if answers[|answers| - 1].Paired? then 1 else 0
  }

  function BadProofs(answers: seq<Answer>): nat {
    if answers == [] then 0
    else BadProofs(answers[..|answers| - 1]) + if answers[|answers| - 1].BadProof? then 1 else 0
  }

  predicate Withdrawn(calls: seq<Call>) {
    exists i :: 0 <= i < |calls| && calls[i].Withdraw?
  }

  lemma OneMoreAnswer(answers: seq<Answer>, a: Answer)
    ensures PairedCount(answers + [a]) == PairedCount(answers) + if a.Paired? then 1 else 0
    ensures BadProofs(answers + [a]) == BadProofs(answers) + if a.BadProof? then 1 else 0
  {
    assert (answers + [a])[..|answers|] == answers;
  }

  lemma WithdrawnSoFar(calls: seq<Call>)
    requires calls != []
    ensures Withdrawn(calls) <==> Withdrawn(calls[..|calls| - 1]) || calls[|calls| - 1].Withdraw?
  {
    var before := calls[..|calls| - 1];
    if Withdrawn(before) {
      var i :| 0 <= i < |before| && before[i].Withdraw?;
      assert calls[i].Withdraw?;
    }
    if Withdrawn(calls) {
      var i :| 0 <= i < |calls| && calls[i].Withdraw?;
      assert i < |before| ==> before[i].Withdraw?;
    }
  }

  /** The offer's state, read off its answers. */
  predicate AsAnswered(p: Offer, answers: seq<Answer>, withdrawn: bool, code: string, at: Time) {
    && p.attempts == BadProofs(answers) <= MAX_CODE_ATTEMPTS
    && PairedCount(answers) <= 1
    && p.offered == at
    && (withdrawn <==> p.code == "")
    && (withdrawn ==> p.voided)
    && (!withdrawn ==>
          && p.code == code
          && (p.voided <==> BadProofs(answers) == MAX_CODE_ATTEMPTS)
          && (p.used <==> PairedCount(answers) == 1))
  }

  lemma RequestKeepsTally(o: Oracles, p: Offer, answers: seq<Answer>, withdrawn: bool, code: string, at: Time,
                          req: Request, now: Time, mint: Option<string>)
    requires code != "" && AsAnswered(p, answers, withdrawn, code, at)
    ensures var (next, answer) := p.Complete(o, req, now, mint);
            AsAnswered(next, answers + [answer], withdrawn, code, at)
  {
    OneMoreAnswer(answers, p.Complete(o, req, now, mint).1);
  }

  /** The offer's whole state is what its answers say: one attempt is charged
      for each bad proof and for nothing else, the code is void once it was
      withdrawn or the fifth bad proof has come, and used once a peer paired.
      So one offer makes at most one credential. */
  lemma {:induction false} OfferIsItsAnswers(o: Oracles, code: string, at: Time, calls: seq<Call>)
    requires code != ""
    ensures AsAnswered(After(o, Fresh(code, at), calls), Answers(o, Fresh(code, at), calls), Withdrawn(calls),
                       code, at)
  {
    if calls != [] {
      var before, c := calls[..|calls| - 1], calls[|calls| - 1];
      OfferIsItsAnswers(o, code, at, before);
      WithdrawnSoFar(calls);
      if c.Request? {
        RequestKeepsTally(o, After(o, Fresh(code, at), before), Answers(o, Fresh(code, at), before),
                          Withdrawn(before), code, at, c.req, c.now, c.mint);
      }
    }
  }

  /** Only a failed proof spends an attempt: a wrong certificate, a manifest that
      cannot be reviewed, a late request or a failure to mint leaves the offer
      exactly as it was. */
  lemma OnlyBadProofsAreCharged(o: Oracles, p: Offer, req: Request, now: Time, mint: Option<string>)
    ensures var (next, answer) := p.Complete(o, req, now, mint);
            && (next.attempts != p.attempts <==> answer == BadProof)
            && (answer == BadProof ==> next.attempts == p.attempts + 1)
            && (answer in {NoPairing, CodeUsed, CodeExpired, OtherFingerprint, ManifestNeeded, MintFailed} ==>
                  next == p)
  {
  }

  /** The peer holds the code, saw this product's certificate and declared
      something: what it needs to pair. */
  predicate Right(o: Oracles, code: string, req: Request) {
    && o.normal(req.fingerprint) == o.own && req.manifestOk
    && SameDigest(o.Proof(code, "client", req.slug, req.nonce), req.proof)
  }

  /** Nobody can spend the operator's code without guessing at it. At any point
      of any run of one offer, the peer with the right proof is paired exactly
      if it comes within the code's life, nobody has paired, the offer stands
      and fewer than five bad proofs have come: however many other requests
      there were. */
  lemma RightPeerIsPairedExactlyWhen(o: Oracles, code: string, at: Time, calls: seq<Call>, req: Request,
                                     now: Time, linkID: string)
    requires code != "" && Right(o, code, req)
    ensures var p, answers := After(o, Fresh(code, at), calls), Answers(o, Fresh(code, at), calls);
            p.Complete(o, req, now, Some(linkID)).1 == Paired(linkID) <==>
              && now - at <= CODE_TTL && !Withdrawn(calls)
              && PairedCount(answers) == 0 && BadProofs(answers) < MAX_CODE_ATTEMPTS
  {
    OfferIsItsAnswers(o, code, at, calls);
  }

  /** Exactly when anybody at all is paired, at any point of any run of one offer:
      when the peer is the right one, its proof included, comes within ten minutes,
      nobody has paired, the offer stands, fewer than five bad proofs have come and a
      credential could be made. */
  lemma PairedExactlyWhen(o: Oracles, code: string, at: Time, calls: seq<Call>, req: Request, now: Time,
                          mint: Option<string>)
    requires code != ""
    ensures var p, answers := After(o, Fresh(code, at), calls), Answers(o, Fresh(code, at), calls);
            var answer := p.Complete(o, req, now, mint).1;
            && (answer.Paired? <==>
                  && Right(o, code, req) && now - at <= 600_000_000_000 && !Withdrawn(calls)
                  && PairedCount(answers) == 0 && BadProofs(answers) < 5 && mint.Some?)
            && (answer.Paired? ==> mint == Some(answer.linkID))
  {
    OfferIsItsAnswers(o, code, at, calls);
  }

  /** The peer has everything but the proof: what it brings does not read as the proof
      of this code. */
  predicate WrongProof(o: Oracles, code: string, req: Request) {
    && o.normal(req.fingerprint) == o.own && req.manifestOk
    && DecodeDigest(req.proof) != Some(o.mac(NormaliseCode(code), "client", req.slug, o.own, req.nonce))
  }

  /** Exactly when a proof is refused as bad, at any point of any run of one offer:
      when the offer stands and only the proof is wrong. */
  lemma BadProofExactlyWhen(o: Oracles, code: string, at: Time, calls: seq<Call>, req: Request, now: Time,
                            mint: Option<string>)
    requires code != ""
    ensures var p, answers := After(o, Fresh(code, at), calls), Answers(o, Fresh(code, at), calls);
            p.Complete(o, req, now, mint).1 == BadProof <==>
              && WrongProof(o, code, req) && now - at <= 600_000_000_000 && !Withdrawn(calls)
              && PairedCount(answers) == 0 && BadProofs(answers) < 5
  {
    OfferIsItsAnswers(o, code, at, calls);
  }

  /** With nothing on offer, never or no longer, nobody is paired and nothing is
      charged. */
  lemma NothingOnOffer(o: Oracles, p: Offer, req: Request, now: Time, mint: Option<string>)
    ensures p.code == "" ==> p.Complete(o, req, now, mint) == (p, NoPairing)
    ensures p.Cancel().Complete(o, req, now, mint) == (p.Cancel(), NoPairing)
  {
  }

  /** Guesses at the code, all in time. */
  ghost predicate Guesses(o: Oracles, code: string, at: Time, calls: seq<Call>) {
    forall i :: 0 <= i < |calls| ==>
      calls[i].Request? && WrongProof(o, code, calls[i].req) && calls[i].now - at <= 600_000_000_000
  }

  /** From a fresh offer each of the first five wrong proofs is charged, and the fifth
      voids the code, not the fourth. */
  lemma {:induction false} FiveGuessesVoidTheCode(o: Oracles, code: string, at: Time, calls: seq<Call>)
    requires code != "" && Guesses(o, code, at, calls)
    ensures var p := After(o, Fresh(code, at), calls);
            && p.attempts == (if |calls| <= 5 then |calls| else 5)
            && (p.voided <==> |calls| >= 5) && !p.used && p.code == code && p.offered == at
  {
    if calls != [] {
      FiveGuessesVoidTheCode(o, code, at, calls[..|calls| - 1]);
      var c := calls[|calls| - 1];
      assert c.Request? && WrongProof(o, code, c.req);
    }
  }

  /** So four guesses leave the right peer its pairing, and five do not. */
  lemma GuessesCostThePeerNothingUpToFour(o: Oracles, code: string, at: Time, calls: seq<Call>, req: Request,
                                          now: Time, linkID: string)
    requires code != "" && Guesses(o, code, at, calls) && Right(o, code, req) && now - at <= 600_000_000_000
    ensures After(o, Fresh(code, at), calls).Complete(o, req, now, Some(linkID)).1
            == if |calls| <= 4 then Paired(linkID) else CodeVoided
  {
    FiveGuessesVoidTheCode(o, code, at, calls);
  }

  /** A right proof is never charged as a wrong one for the base64 it is written
      in: any of the four spellings, with blanks around it or not. */
  lemma SpellingIsNeverCharged(o: Oracles, p: Offer, req: Request, url: bool, padded: bool, before: string,
                               after: string, now: Time, mint: Option<string>)
    requires var proof := o.Proof(p.code, "client", req.slug, req.nonce);
             && proof != [] && AllSpaces(before) && AllSpaces(after)
             && req.proof == before + Spelling(proof, url, padded) + after
    ensures var (next, answer) := p.Complete(o, req, now, mint);
            answer != BadProof && next.attempts == p.attempts
  {
    EverySpellingReadsTheSame(o.Proof(p.code, "client", req.slug, req.nonce), url, padded, before, after);
  }

  class Pairer {
    const o: Oracles
    var code: string
    var offered: Time
    var attempts: nat
    var used: bool
    var voided: bool

    function State(): Offer
      reads this
    {
      Offer(code, offered, attempts, used, voided)
    }

    constructor (oracles: Oracles)
      ensures o == oracles && State() == Fresh("", 0)
    {
      o := oracles;
      code, offered, attempts, used, voided := "", 0, 0, false, false;
    }

    /** Any earlier code is abandoned. */
    method MakeOffer(random: string, now: Time)
      requires |random| == CODE_LENGTH && IsCode(random)
      modifies this
      ensures State() == Fresh(random, now)
    {
      code, offered, attempts, used, voided := random, now, 0, false, false;
    }

    method Cancel()
      modifies this
      ensures State() == old(State()).Cancel()
    {
      code, used, voided := "", false, true;
    }

    /** What the operator's screen shows: the code only while it could still be
        used. */
    method Offered(now: Time) returns (shown: string, left: Duration)
      ensures shown != "" ==> shown == code && 0 < left == CODE_TTL - (now - offered)
      ensures shown != "" <==> code != "" && !used && !voided && now - offered < CODE_TTL
    {
      if code == "" || used || voided {
        return "", 0;
      }
      left := CODE_TTL - (now - offered);
      if left <= 0 {
        return "", 0;
      }
      return code, left;
    }

    method Complete(req: Request, now: Time, mint: Option<string>) returns (answer: Answer)
      modifies this
      ensures (State(), answer) == old(State()).Complete(o, req, now, mint)
    {
      if code == "" {
        return NoPairing;
      } else if voided {
        return CodeVoided;
      } else if used {
        return CodeUsed;
      } else if now - offered > CODE_TTL {
        return CodeExpired;
      } else if attempts >= MAX_CODE_ATTEMPTS {
        voided := true;
        return CodeVoided;
      }
      if o.normal(req.fingerprint) != o.own {
        return OtherFingerprint;
      }
      if !req.manifestOk {
        return ManifestNeeded;
      }
      var want := o.Proof(code, "client", req.slug, req.nonce);
      if !SameDigest(want, req.proof) {
        attempts := attempts + 1;
        if attempts >= MAX_CODE_ATTEMPTS {
          voided := true;
        }
        return BadProof;
      }
      if mint.None? {
        return MintFailed;
      }
      used := true;
      return Paired(mint.value);
    }
  }

  /** The loop over what was typed. */
  method ComputeNormaliseCode(v: string) returns (out: string)
    ensures out == NormaliseCode(v)
  {
    var text := TrimSpace(v);
    out := "";
    for i := 0 to |text|
      invariant out + Readings(text[i..]) == Readings(text)
    {
      var c := UpperChar(text[i]);
      ReadingsStep(out, text, i);
      if c == '-' || c == ' ' {
        assert out + Reading(c) == out;
        continue;
      }
      out := out + [if c == 'I' || c == 'L' then '1' else if c == 'O' then '0' else c];
    }
    assert text[|text|..] == [];
  }

  lemma ReadingsStep(out: string, text: string, i: nat)
    requires i < |text|
    ensures out + Readings(text[i..]) == out + Reading(UpperChar(text[i])) + Readings(text[i + 1..])
  {
    assert text[i..][1..] == text[i + 1..];
    assert Readings(text[i..]) == Reading(UpperChar(text[i])) + Readings(text[i + 1..]);
  }
}
