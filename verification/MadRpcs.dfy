/** Request and reply over management datagrams: retries, replies to other requests, and
    redirection to another destination. */
module MadRpcs {
  import opened Options

  const ENOMEM := 12
  const EINVAL := 22
  const ETIMEDOUT := 110
  const STATUS_REDIRECT := 2
  const LOW_32 := 0x1_0000_0000
  const WORD_64 := 0x1_0000_0000_0000_0000

  /** The part of a port identifier that a redirection replaces. */
  datatype Dest = Dest(lid: nat, qp: nat, qkey: nat, sl: nat)

  /** An encoded request: its transaction id and everything else in the datagram. */
  datatype Request = Request(trid: nat, body: seq<nat>)

  /** A received datagram: the status of its delivery, its own status field, the redirection
      it may carry, its length and its payload. */
  datatype Reply = Reply(
    trid: nat, umadStatus: nat, madStatus: nat, redirect: Dest, length: nat, data: seq<nat>)

  /** Only the low half of a transaction id is the sender's; the kernel uses the rest. */
  predicate SameTrid(r: Reply, trid: nat) { r.trid % LOW_32 == trid % LOW_32 }

  predicate Delivered(r: Reply) { r.umadStatus == 0 || r.umadStatus == ENOMEM }

  /** A received datagram that answers request `trid`. */
  predicate Answers(recv: Option<Reply>, trid: nat) {
    recv.Some? && SameTrid(recv.value, trid) && Delivered(recv.value)
  }

  /** How many of the replies answer the request. */
  function Matching(recvs: seq<Option<Reply>>, trid: nat): nat {
    if recvs == [] then 0 else
    var last := recvs[|recvs| - 1];
    Matching(recvs[..|recvs| - 1], trid) + if last.Some? && SameTrid(last.value, trid) then 1 else 0
  }

  lemma MatchingNext(recvs: seq<Option<Reply>>, trid: nat, n: nat)
    requires n < |recvs|
    ensures Matching(recvs[..n + 1], trid) ==
              Matching(recvs[..n], trid) + if recvs[n].Some? && SameTrid(recvs[n].value, trid) then 1 else 0
  {
    assert recvs[..n + 1][..n] == recvs[..n];
  }

  /** Why a call without an answer ended, and the error code it leaves: no retries allowed, a send
      failed, a receive failed, or every attempt was answered by a failed delivery. Only the first
      and the last have a code. */
  ghost predicate NoAnswerBecause(recvs: seq<Option<Reply>>, trid: nat, retries: int, failAt: set<nat>, base: nat,
                                  attempts: nat, used: nat, error: nat)
    requires used <= |recvs|
  {
    || (retries <= 0 && attempts == 0 && error == EINVAL)
    || (attempts > 0 && base + attempts - 1 in failAt && error == 0)
    || (attempts > 0 && (used == |recvs| || recvs[used].None?) && error == 0)
    || (attempts == retries && Matching(recvs[..used], trid) == attempts && error == ETIMEDOUT)
  }

  /** _do_madrpc. `recvs` are the outcomes of successive receives (none left is a failure) and
      `failAt` the numbers of the sends that fail, counted from `base`. The same request is sent
      at most `retries` times; the answer is the first delivered reply with its transaction id,
      and each attempt before it used up exactly one undelivered one. `len` is the length of the
      answer, or -1, and `error` the code left behind. */
  method DoMadRpc(req: Request, recvs: seq<Option<Reply>>, retries: int, failAt: set<nat>, base: nat)
    returns (answer: Option<Reply>, attempts: nat, used: nat, len: int, error: nat)
    ensures used <= |recvs| && (forall k :: 0 <= k < used ==> recvs[k].Some?)
    ensures attempts == 0 || attempts <= retries
    ensures answer.Some? ==>
              && used > 0 && recvs[used - 1] == answer && SameTrid(answer.value, req.trid) && Delivered(answer.value)
              && Matching(recvs[..used], req.trid) == attempts > 0
              && len == answer.value.length && error == 0
    ensures forall k :: 0 <= k < used && Answers(recvs[k], req.trid) ==> answer.Some? && k == used - 1
    ensures answer.None? ==>
              len == -1 && NoAnswerBecause(recvs, req.trid, retries, failAt, base, attempts, used, error)
  {
    answer, attempts, used, len, error := None, 0, 0, -1, 0;
    if retries <= 0 {
      error := EINVAL;
      return;
    }
    while attempts < retries
      invariant 0 <= attempts <= retries && used <= |recvs| && answer == None && len == -1 && error == 0
      invariant forall k :: 0 <= k < used ==> recvs[k].Some?
      invariant forall k :: 0 <= k < used ==> !Answers(recvs[k], req.trid)
      invariant Matching(recvs[..used], req.trid) == attempts
      decreases retries - attempts
    {
      attempts := attempts + 1;
      if base + attempts - 1 in failAt { return; }
      var got: Reply;
      while true
        invariant used <= |recvs|
        invariant forall k :: 0 <= k < used ==> recvs[k].Some?
        invariant forall k :: 0 <= k < used ==> !Answers(recvs[k], req.trid)
        invariant Matching(recvs[..used], req.trid) == attempts - 1
        decreases |recvs| - used
      {
        if used == |recvs| || recvs[used].None? { return; }
        MatchingNext(recvs, req.trid, used);
        got := recvs[used].value;
        used := used + 1;
        if SameTrid(got, req.trid) { break; }
      }
      if Delivered(got) {
        answer, len := Some(got), got.length;
        return;
      }
    }
    error := ETIMEDOUT;
  }

  // ------------------------------------------------------------ transaction ids

  /** The static counter of mad_trid, a 64-bit word. */
  class TridSource {
    var last: nat

    constructor ()
      ensures last == 0
    {
      last := 0;
    }

    /** mad_trid: counts up from a random number and hands out the low half. Consecutive ids
        differ. */
    method MadTrid(random: nat) returns (t: nat)
      requires last < WORD_64 && random < WORD_64
      modifies this
      ensures last == ((if old(last) == 0 then random else old(last)) + 1) % WORD_64
      ensures t == last % LOW_32
      ensures old(last) != 0 ==> t != old(last) % LOW_32
    {
      if last == 0 { last := random; }
      last := (last + 1) % WORD_64;
      t := last % LOW_32;
    }
  }

  // ------------------------------------------------------------ the call

  /** `versioned` calls have an error field, which the others do not touch. */
  class RpcCall {
    var trid: nat
    var rstatus: nat
    var error: nat
    const versioned: bool
    const body: seq<nat>

    constructor (trid: nat, body: seq<nat>, versioned: bool)
      ensures this.trid == trid && this.body == body && this.versioned == versioned && rstatus == 0 && error == 0
    {
      this.trid, this.body, this.versioned, rstatus, error := trid, body, versioned, 0, 0;
    }

    /** The part of mad_encode that gives a request its id, once. */
    method Encode(src: TridSource, random: nat) returns (req: Request)
      requires src.last < WORD_64 && random < WORD_64
      modifies this`trid, src
      ensures req == Request(trid, body) && src.last < WORD_64
      ensures old(trid) != 0 ==> trid == old(trid) && src.last == old(src.last)
      ensures old(trid) == 0 ==>
                && src.last == ((if old(src.last) == 0 then random else old(src.last)) + 1) % WORD_64
                && trid == src.last % LOW_32
    {
      if trid == 0 { trid := src.MadTrid(random); }
      req := Request(trid, body);
    }
  }

  /** All sends of one request to one destination: `since` receives and `sent` sends were made before
      it, `upto` receives by its end, and it left the code `error`. */
  datatype Round = Round(dest: Dest, req: Request, since: nat, sent: nat, attempts: nat, answer: Option<Reply>,
                         upto: nat, error: nat)

  /** Of what a round received, only the last can be an answer, and then it is the one taken. */
  ghost predicate NoneBefore(r: Round, recvs: seq<Option<Reply>>)
    requires r.upto <= |recvs|
  {
    forall k :: r.since <= k < r.upto && Answers(recvs[k], r.req.trid) ==> k == r.upto - 1 && recvs[k] == r.answer
  }

  /** What a round shows: no more attempts than allowed, and either the first delivered datagram
      with its id, the last it received, or the reason why there was none, with its code. */
  ghost predicate IsRound(r: Round, retries: int, recvs: seq<Option<Reply>>, failAt: set<nat>) {
    && r.since <= r.upto <= |recvs| && (r.attempts == 0 || r.attempts <= retries)
    && NoneBefore(r, recvs)
    && match r.answer
       case Some(a) =>
         && r.since < r.upto && recvs[r.upto - 1] == r.answer && SameTrid(a, r.req.trid) && Delivered(a)
         && Matching(recvs[r.since..][..r.upto - r.since], r.req.trid) == r.attempts > 0 && r.error == 0
       case None =>
         NoAnswerBecause(recvs[r.since..], r.req.trid, retries, failAt, r.sent, r.attempts, r.upto - r.since, r.error)
  }

  predicate Redirected(r: Round) {
    r.answer.Some? && r.answer.value.madStatus == STATUS_REDIRECT && r.answer.value.redirect.lid != 0
  }

  /** A round follows the one before: it goes where that one's answer pointed, takes up where it
      ended, and sends the same id unless that was zero. */
  ghost predicate Follows(r: Round, r': Round) {
    && Redirected(r) && r'.dest == r.answer.value.redirect
    && r'.since == r.upto && r'.sent == r.sent + r.attempts
    && (r.req.trid != 0 ==> r'.req.trid == r.req.trid)
  }

  /** The rounds of a call: the first goes to the given destination, each later one where the
      answer before it pointed; the datagram stays the same, and so does its id once it is not
      zero. */
  ghost predicate IsCall(rounds: seq<Round>, dport: Dest, body: seq<nat>, retries: int, recvs: seq<Option<Reply>>,
                         failAt: set<nat>)
  {
    && (|rounds| > 0 ==> rounds[0].dest == dport && rounds[0].since == 0 && rounds[0].sent == 0)
    && (forall i :: 0 <= i < |rounds| ==> rounds[i].req.body == body && IsRound(rounds[i], retries, recvs, failAt))
    && (forall i :: 0 <= i < |rounds| - 1 ==> Follows(rounds[i], rounds[i + 1]))
    && (forall i, j :: 0 <= i < j < |rounds| && rounds[i].req.trid != 0 ==> rounds[j].req.trid == rounds[i].req.trid)
  }

  /** A call in terms of the datagrams: the answer of a round is the first received in it that has the
      low 32 bits of its id and was delivered, or found no memory on the way; and each later
      round goes where the answer before it, of status 2, redirected it. */
  lemma CallOnTheWire(rounds: seq<Round>, dport: Dest, body: seq<nat>, retries: int, recvs: seq<Option<Reply>>,
                      failAt: set<nat>, i: nat)
    requires IsCall(rounds, dport, body, retries, recvs, failAt) && i < |rounds|
    ensures var r := rounds[i];
            && r.upto <= |recvs|
            && (r.answer.Some? ==>
                  && r.upto > r.since && recvs[r.upto - 1] == r.answer
                  && r.answer.value.trid % 0x1_0000_0000 == r.req.trid % 0x1_0000_0000
                  && (r.answer.value.umadStatus == 0 || r.answer.value.umadStatus == 12))
            && (forall k :: r.since <= k < r.upto - (if r.answer.Some? then 1 else 0) && recvs[k].Some?
                            && recvs[k].value.trid % 0x1_0000_0000 == r.req.trid % 0x1_0000_0000 ==>
                  recvs[k].value.umadStatus != 0 && recvs[k].value.umadStatus != 12)
    ensures i + 1 < |rounds| ==>
              && rounds[i].answer.Some? && rounds[i].answer.value.madStatus == 2
              && rounds[i].answer.value.redirect.lid != 0 && rounds[i + 1].dest == rounds[i].answer.value.redirect
  {
    var r := rounds[i];
    assert IsRound(r, retries, recvs, failAt);
    forall k | r.since <= k < r.upto - (if r.answer.Some? then 1 else 0) && recvs[k].Some?
               && recvs[k].value.trid % 0x1_0000_0000 == r.req.trid % 0x1_0000_0000
      ensures recvs[k].value.umadStatus != 0 && recvs[k].value.umadStatus != 12
    {
      assert !Answers(recvs[k], r.req.trid);
    }
    assert i + 1 < |rounds| ==> Follows(rounds[i], rounds[i + 1]);
  }

  lemma CallGrows(rounds: seq<Round>, r: Round, dport: Dest, body: seq<nat>, retries: int, recvs: seq<Option<Reply>>,
                  failAt: set<nat>)
    requires IsCall(rounds, dport, body, retries, recvs, failAt)
    requires r.req.body == body && IsRound(r, retries, recvs, failAt)
    requires if rounds == [] then r.dest == dport && r.since == 0 && r.sent == 0
             else Follows(rounds[|rounds| - 1], r)
    ensures IsCall(rounds + [r], dport, body, retries, recvs, failAt)
  {
    var more := rounds + [r];
    forall i | 0 <= i < |more| ensures more[i].req.body == body && IsRound(more[i], retries, recvs, failAt) {
      assert i < |rounds| ==> more[i] == rounds[i];
    }
    forall i | 0 <= i < |more| - 1 ensures Follows(more[i], more[i + 1]) {
      assert more[i] == rounds[i];
      assert i < |rounds| - 1 ==> more[i + 1] == rounds[i + 1];
    }
  }

  /** What one destination gave is a round. */
  lemma RoundIsMade(r: Round, retries: int, recvs: seq<Option<Reply>>, failAt: set<nat>)
    requires r.since <= r.upto <= |recvs| && (r.attempts == 0 || r.attempts <= retries)
    requires var got, used := recvs[r.since..], r.upto - r.since;
             && (forall k :: 0 <= k < used && Answers(got[k], r.req.trid) ==> r.answer.Some? && k == used - 1)
             && (r.answer.Some? ==>
                   && used > 0 && got[used - 1] == r.answer && Answers(r.answer, r.req.trid)
                   && Matching(got[..used], r.req.trid) == r.attempts > 0 && r.error == 0)
             && (r.answer.None? ==>
                   NoAnswerBecause(got, r.req.trid, retries, failAt, r.sent, r.attempts, used, r.error))
    ensures IsRound(r, retries, recvs, failAt)
  {
    forall k | r.since <= k < r.upto && Answers(recvs[k], r.req.trid)
      ensures k == r.upto - 1 && recvs[k] == r.answer
    {
      assert recvs[r.since..][k - r.since] == recvs[k];
    }
  }

  /** One pass of the loop of mad_rpc up to the answer: the sends to one destination. */
  method AskOne(src: TridSource, rpc: RpcCall, dest: Dest, retries: int, recvs: seq<Option<Reply>>, failAt: set<nat>,
                random: nat, pos: nat, base: nat)
    returns (round: Round, len: int)
    requires src.last < WORD_64 && random < WORD_64 && pos <= |recvs|
    modifies src, rpc`trid
    ensures src.last < WORD_64 && IsRound(round, retries, recvs, failAt) && round.upto <= |recvs|
    ensures round.dest == dest && round.req == Request(rpc.trid, rpc.body) && round.since == pos && round.sent == base
    ensures old(rpc.trid) != 0 ==> rpc.trid == old(rpc.trid)
    ensures len == if round.answer.Some? then round.answer.value.length else -1
  {
    var req := rpc.Encode(src, random);
    var answer, attempts, used, n, error := DoMadRpc(req, recvs[pos..], retries, failAt, base);
    round, len := Round(dest, req, pos, base, attempts, answer, pos + used, error), n;
    RoundIsMade(round, retries, recvs, failAt);
  }

  /** mad_rpc, for every finite sequence of receives. It returns data exactly when the last
      destination answered with its own transaction id and status zero, and then that answer's
      data; a redirection without a LID ends the call and clears the destination's. The error left
      behind is that of the last destination: why it had no answer, or 0. */
  method MadRpc(src: TridSource, rpc: RpcCall, dport: Dest, retries: int, recvs: seq<Option<Reply>>,
                failAt: set<nat>, encodable: bool, wanted: bool, random: nat)
    returns (result: Option<seq<nat>>, rounds: seq<Round>, dport': Dest)
    requires src.last < WORD_64 && random < WORD_64
    modifies src, rpc
    ensures IsCall(rounds, dport, rpc.body, retries, recvs, failAt)
    ensures |rounds| > 0 && old(rpc.trid) != 0 ==> rounds[0].req.trid == old(rpc.trid)
    ensures rounds == [] <==> !encodable
    ensures rounds != [] ==> !Redirected(rounds[|rounds| - 1])
    ensures result.Some? <==>
              && wanted && rounds != [] && rounds[|rounds| - 1].answer.Some?
              && rounds[|rounds| - 1].answer.value.madStatus == 0
    ensures result.Some? ==> result.value == rounds[|rounds| - 1].answer.value.data
    ensures rounds != [] && rounds[|rounds| - 1].answer.Some? ==>
              && rpc.rstatus == rounds[|rounds| - 1].answer.value.madStatus
              && dport' == if rpc.rstatus == STATUS_REDIRECT then rounds[|rounds| - 1].dest.(lid := 0)
                           else rounds[|rounds| - 1].dest
    ensures rounds == [] || rounds[|rounds| - 1].answer.None? ==> rpc.rstatus == old(rpc.rstatus)
    ensures rpc.error == if !rpc.versioned then old(rpc.error)
                         else if rounds == [] then 0 else rounds[|rounds| - 1].error
    ensures result.Some? && rpc.versioned ==> rpc.error == 0
  {
    rounds, dport' := [], dport;
    if rpc.versioned { rpc.error := 0; }
    var pos, base := 0, 0;
    while true
      invariant pos <= |recvs| && src.last < WORD_64 && rpc.rstatus == old(rpc.rstatus)
      invariant rpc.error == if rpc.versioned then 0 else old(rpc.error)
      invariant IsCall(rounds, dport, rpc.body, retries, recvs, failAt)
      invariant rounds == [] ==> dport' == dport && pos == base == 0
      invariant rounds == [] && old(rpc.trid) != 0 ==> rpc.trid == old(rpc.trid)
      invariant rounds != [] ==>
                  && Redirected(rounds[|rounds| - 1]) && dport' == rounds[|rounds| - 1].answer.value.redirect
                  && rounds[|rounds| - 1].req.trid == rpc.trid && rounds[|rounds| - 1].upto == pos && encodable
                  && base == rounds[|rounds| - 1].sent + rounds[|rounds| - 1].attempts
      invariant |rounds| > 0 && old(rpc.trid) != 0 ==> rounds[0].req.trid == old(rpc.trid)
      decreases |recvs| - pos
    {
      if !encodable { return None, rounds, dport'; }
      var round, len := AskOne(src, rpc, dport', retries, recvs, failAt, random, pos, base);
      CallGrows(rounds, round, dport, rpc.body, retries, recvs, failAt);
      rounds := rounds + [round];
      if len < 0 {
        if rpc.versioned { rpc.error := round.error; }
        return None, rounds, dport';
      }
      pos, base := round.upto, base + round.attempts;
      var mad := round.answer.value;
      if mad.madStatus == STATUS_REDIRECT && mad.redirect.lid != 0 {
        dport' := mad.redirect;
      } else {
        if mad.madStatus == STATUS_REDIRECT { dport' := dport'.(lid := 0); }
        if rpc.versioned { rpc.error := round.error; }
        rpc.rstatus := mad.madStatus;
        return if mad.madStatus == 0 && wanted then Some(mad.data) else None, rounds, dport';
      }
    }
  }
}
