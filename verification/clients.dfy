/**
 The two sequential clients: `01/client-sequential.py`, which asks for four
 primes and then sends `end`, and `step_09/client_sequential.py`, which asks
 for PRIMES_NUM primes and only closes its socket.

 A client is modelled by its transcript: the messages it sends, the values it
 decodes, and whether its socket ends closed. What each `recv(4)` returns is
 an input (`chunks`); when the peer has nothing more, `recv` gives `b''`.
 The pauses between requests are left out.
 */
module Clients {
  import opened Wrappers
  import opened Codec
  import opened Primes
  import S = SequentialServer
  import A = AsyncServer

  /** Number of primes the step_09 client asks for. */
  const PRIMES_NUM: nat := 10

  /** Number of primes the 01 client asks for. */
  const FIRST_PRIMES_NUM: nat := 4

  datatype Transcript = Transcript(sent: seq<seq<byte>>, values: seq<nat>, closed: bool)

  /** What the `i`-th `recv(4)` yields: at most four bytes, `b''` once the peer has no more. */
  function Received(chunks: seq<seq<byte>>, i: nat): (d: seq<byte>)
    ensures |d| <= REPLY_LEN
    ensures i < |chunks| ==> |d| <= |chunks[i]| && d == chunks[i][..|d|]
    ensures i < |chunks| && |chunks[i]| <= REPLY_LEN ==> d == chunks[i]
  {
    if i >= |chunks| then []
    else if |chunks[i]| <= REPLY_LEN then chunks[i]
    else chunks[i][..REPLY_LEN]
  }

  /** `get_prime`: send `get`, read up to four bytes, decode them big-endian as unsigned. */
  function GetPrime(chunk: seq<byte>): (r: (seq<byte>, nat))
    ensures GetCommand(r.0) == GetPrimeCmd
    ensures r.1 < Pow256(|chunk|)
  {
    (GET_REQUEST, FromBytesBE(chunk))
  }

  /** `get_primes`: `count` calls of `get_prime`, the `i`-th reading the `i`-th chunk. */
  function GetPrimes(count: nat, chunks: seq<seq<byte>>): (r: Transcript)
    ensures |r.sent| == count && |r.values| == count && !r.closed
    ensures forall i :: 0 <= i < count ==> r.sent[i] == GET_REQUEST
    ensures forall i :: 0 <= i < count ==> r.values[i] == FromBytesBE(Received(chunks, i))
  {
    if count == 0 then Transcript([], [], false)
    else
      var before := GetPrimes(count - 1, chunks);
      var (msg, v) := GetPrime(Received(chunks, count - 1));
      Transcript(before.sent + [msg], before.values + [v], false)
  }

  /** step_09 `run`: `get_primes`, then `clean_up`, which only closes the socket. */
  function RunFinal(chunks: seq<seq<byte>>): (r: Transcript)
    ensures r.closed
  {
    GetPrimes(PRIMES_NUM, chunks).(closed := true)
  }

  /** 01 `run`: `get_primes` with four requests, then `clean_up`: send `end`, close the socket. */
  function RunFirst(chunks: seq<seq<byte>>): (r: Transcript)
    ensures r.closed
  {
    var t := GetPrimes(FIRST_PRIMES_NUM, chunks);
    t.(sent := t.sent + [END_REQUEST], closed := true)
  }

  /** The client reads back exactly the value the server encoded, and every four-byte reply is some encoding. */
  lemma GetPrimeInvertsReply(p: int, chunk: seq<byte>)
    ensures 0 <= p < 0x1_0000_0000 ==> GetPrime(EncodeReply(p).value).1 == p
    ensures |chunk| == REPLY_LEN ==> EncodeReply(GetPrime(chunk).1) == Success(chunk)
  {
    if |chunk| == REPLY_LEN {
      ReplyDecodeEncode(chunk);
    }
  }

  /** The step_09 client sends ten `get`s and never `end`: it cannot shut the server down. */
  lemma FinalClientNeverSendsEnd(chunks: seq<seq<byte>>)
    ensures |RunFinal(chunks).sent| == PRIMES_NUM && |RunFinal(chunks).values| == PRIMES_NUM
    ensures forall i :: 0 <= i < |RunFinal(chunks).sent| ==> GetCommand(RunFinal(chunks).sent[i]) == GetPrimeCmd
    ensures END_REQUEST !in RunFinal(chunks).sent
  {
    var sent := RunFinal(chunks).sent;
    forall i | 0 <= i < |sent|
      ensures sent[i] != END_REQUEST
    {
      assert sent[i][0] != END_REQUEST[0];
    }
  }

  /** The 01 client sends four `get`s and then one `end`, which is its last message. */
  lemma FirstClientEndsWithEnd(chunks: seq<seq<byte>>)
    ensures RunFirst(chunks).sent == [GET_REQUEST, GET_REQUEST, GET_REQUEST, GET_REQUEST, END_REQUEST]
    ensures |RunFirst(chunks).values| == FIRST_PRIMES_NUM
  {
  }

  /**
   The 01 client against the 01 server: if the run does not overflow, the
   server reaches SHUTDOWN_STATE, sends exactly four replies, and the client,
   reading those replies, decodes four primes larger than the calculator's
   starting prime 3.
   */
  lemma FirstClientShutsDownServer(chunks: seq<seq<byte>>)
    requires S.Run(S.NewServer(), RunFirst(chunks).sent).Success?
    ensures var out := S.Run(S.NewServer(), RunFirst(chunks).sent).value;
      && out.server.state.ShutdownState?
      && |out.replies| == FIRST_PRIMES_NUM
      && forall i :: 0 <= i < FIRST_PRIMES_NUM ==>
           var v := RunFirst(out.replies).values[i];
           Prime(v) && v > 3
  {
    var sent := RunFirst(chunks).sent;
    FirstClientUpToEnd(chunks);
    FirstClientCountsGets(chunks);
    S.RunShutsDownExactlyOnEnd(S.NewServer(), sent);
    S.RepliesAreLaterPrimes(S.NewServer(), sent);
    var out := S.Run(S.NewServer(), sent).value;
    forall i | 0 <= i < FIRST_PRIMES_NUM
      ensures Prime(RunFirst(out.replies).values[i]) && RunFirst(out.replies).values[i] > 3
    {
      assert Received(out.replies, i) == out.replies[i];
    }
  }

  /** The 01 server reads the whole of the 01 client's output: `end` is sent, and it is the last message. */
  lemma FirstClientUpToEnd(chunks: seq<seq<byte>>)
    ensures var sent := RunFirst(chunks).sent;
      END_REQUEST in sent && S.UpToEnd(sent) == sent
  {
    var sent := RunFirst(chunks).sent;
    FirstClientEndsWithEnd(chunks);
    assert sent[4] == END_REQUEST;
  }

  /** Four of the 01 client's messages are `get`. */
  lemma FirstClientCountsGets(chunks: seq<seq<byte>>)
    ensures S.CountGets(RunFirst(chunks).sent) == FIRST_PRIMES_NUM
  {
    var sent := RunFirst(chunks).sent;
    FirstClientEndsWithEnd(chunks);
    assert GET_REQUEST != END_REQUEST by { assert GET_REQUEST[0] != END_REQUEST[0]; }
    assert S.CountGets(sent[4..]) == 0;
    assert S.CountGets(sent[3..]) == 1 by { assert sent[3..][1..] == sent[4..]; }
    assert S.CountGets(sent[2..]) == 2 by { assert sent[2..][1..] == sent[3..]; }
    assert S.CountGets(sent[1..]) == 3 by { assert sent[1..][1..] == sent[2..]; }
  }

  /** The messages a client task of the async server reads from the step_09 client, with the prime current at each. */
  function FinalSessionInbox(primes: seq<int>): (inbox: seq<A.Incoming>)
    requires |primes| == PRIMES_NUM
    ensures |inbox| == PRIMES_NUM + 1
    ensures forall i :: 0 <= i < PRIMES_NUM ==> inbox[i].data == GET_REQUEST && inbox[i].prime == primes[i]
    ensures inbox[PRIMES_NUM].data == []
  {
    var sent := RunFinal([]).sent;
    seq(PRIMES_NUM, i requires 0 <= i < PRIMES_NUM => A.Incoming(sent[i], primes[i])) + [A.Incoming([], 0)]
  }

  /** Among messages that are all `get`, the primes asked for are exactly the primes current at each. */
  lemma {:induction false} AskedAllGets(msgs: seq<A.Incoming>)
    requires forall i :: 0 <= i < |msgs| ==> msgs[i].data == GET_REQUEST
    ensures A.AskedPrimes(msgs) == seq(|msgs|, i requires 0 <= i < |msgs| => msgs[i].prime)
    decreases |msgs|
  {
    if |msgs| > 0 {
      AskedAllGets(msgs[1..]);
    }
  }

  /**
   The step_09 client against a client task of the async server: when every
   prime current at a request fits four bytes, the client task answers all ten
   requests, the client decodes exactly those primes in order, and that client task
   ends as a lost client (the client's close), not through `end`.
   */
  lemma FinalClientSession(s: A.Server, primes: seq<int>)
    requires |primes| == PRIMES_NUM
    requires forall i :: 0 <= i < PRIMES_NUM ==> 0 <= primes[i] < 0x1_0000_0000
    ensures var r := A.ProcessClient(A.Later, s, FinalSessionInbox(primes));
      && r.end.Lost? && r.closed && r.read == PRIMES_NUM + 1
      && RunFinal(r.replies).values == primes
  {
    var inbox := FinalSessionInbox(primes);
    var r := A.ProcessClient(A.Later, s, inbox);
    FinalSessionEnds(s, primes);
    A.RepliesAnswerGets(A.Later, s, inbox);
    A.RepliesAreFourBytes(A.Later, s, inbox);
    var gets := inbox[..PRIMES_NUM];
    assert inbox[..r.read] == gets + [inbox[PRIMES_NUM]];
    AskedAllGets(gets);
    AskedSkipsNonGet(gets, inbox[PRIMES_NUM]);
    assert A.Decoded(r.replies) == primes;
    FinalClientDecodes(r.replies);
  }

  /** The client task reads all ten requests and the closing empty message, and ends as a lost client. */
  lemma FinalSessionEnds(s: A.Server, primes: seq<int>)
    requires |primes| == PRIMES_NUM
    requires forall i :: 0 <= i < PRIMES_NUM ==> 0 <= primes[i] < 0x1_0000_0000
    ensures var r := A.ProcessClient(A.Later, s, FinalSessionInbox(primes));
      r.end.Lost? && r.closed && r.read == PRIMES_NUM + 1
  {
    var inbox := FinalSessionInbox(primes);
    A.CrashOnlyOnWideGet(A.Later, s, inbox);
    A.ProcessClientStopsOnEmpty(A.Later, s, inbox);
  }

  /** Given ten four-byte replies, the step_09 client's values are their decodings. */
  lemma FinalClientDecodes(replies: seq<seq<byte>>)
    requires |replies| == PRIMES_NUM
    requires forall k :: 0 <= k < |replies| ==> |replies[k]| == REPLY_LEN
    ensures RunFinal(replies).values == A.Decoded(replies)
  {
    var t := RunFinal(replies);
    forall i | 0 <= i < PRIMES_NUM
      ensures t.values[i] == A.Decoded(replies)[i]
    {
      assert Received(replies, i) == replies[i];
      DecodedAt(replies, i);
    }
  }

  lemma {:induction false} AskedSkipsNonGet(msgs: seq<A.Incoming>, m: A.Incoming)
    requires m.data != GET_REQUEST
    ensures A.AskedPrimes(msgs + [m]) == A.AskedPrimes(msgs)
    decreases |msgs|
  {
    if |msgs| == 0 {
      assert msgs + [m] == [m];
    } else {
      assert (msgs + [m])[1..] == msgs[1..] + [m];
      AskedSkipsNonGet(msgs[1..], m);
    }
  }

  lemma {:induction false} DecodedAt(replies: seq<seq<byte>>, i: nat)
    requires i < |replies|
    ensures A.Decoded(replies)[i] == FromBytesBE(replies[i])
    decreases i
  {
    if i > 0 {
      DecodedAt(replies[1..], i - 1);
    }
  }
}
