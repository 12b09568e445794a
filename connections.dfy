/**
 * The server's registry of live WebSocket connections per session code, and
 * the routing of host and participant messages to sends.
 *
 * A connection is an opaque identity. Every send that reaches a connection is
 * appended to an outbox; `broken` names the connections whose transport
 * raises on send, and a send to one of them is dropped without error.
 */
module Connections {
  import opened Wrappers
  import opened Json

  /** An accepted WebSocket, known only by its identity. */
  type Conn = nat

  /** One entry of a bucket's `participants` dict. */
  datatype Entry = Entry(pid: string, conn: Conn)

  /** A participant dict: entries in insertion order, as a Python dict keeps them. */
  type Entries = seq<Entry>

  ghost predicate UniqueKeys(es: Entries)
  {
    forall i, j :: 0 <= i < j < |es| ==> es[i].pid != es[j].pid
  }

  function Keys(es: Entries): (r: seq<string>)
    ensures |r| == |es| && forall i :: 0 <= i < |es| ==> r[i] == es[i].pid
  {
    if es == [] then [] else [es[0].pid] + Keys(es[1..])
  }

  /** `participants.get(pid)`. */
  function Lookup(es: Entries, pid: string): (r: Option<Conn>)
    ensures r.None? <==> pid !in Keys(es)
    ensures r.Some? ==> Entry(pid, r.value) in es
  {
    if es == [] then None
    else if es[0].pid == pid then Some(es[0].conn)
    else Lookup(es[1..], pid)
  }

  /** `participants[pid] = conn`: an existing key keeps its place, a new one goes last. */
  function Put(es: Entries, pid: string, conn: Conn): (r: Entries)
    ensures Keys(r) == if pid in Keys(es) then Keys(es) else Keys(es) + [pid]
  {
    if es == [] then [Entry(pid, conn)]
    else if es[0].pid == pid then [Entry(pid, conn)] + es[1..]
    else [es[0]] + Put(es[1..], pid, conn)
  }

  /** `participants.pop(pid, None)`. */
  function Remove(es: Entries, pid: string): (r: Entries)
    ensures |r| <= |es|
    ensures forall e :: e in r ==> e in es && e.pid != pid
  {
    if es == [] then []
    else if es[0].pid == pid then Remove(es[1..], pid)
    else [es[0]] + Remove(es[1..], pid)
  }

  lemma {:induction false} KeysUnique(es: Entries)
    requires UniqueKeys(es)
    ensures forall i, j :: 0 <= i < j < |Keys(es)| ==> Keys(es)[i] != Keys(es)[j]
  {
  }

  /** After `participants[pid] = conn`, pid maps to conn and every other key is as before. */
  lemma {:induction false} LookupPut(es: Entries, pid: string, conn: Conn, q: string)
    ensures Lookup(Put(es, pid, conn), q) == if q == pid then Some(conn) else Lookup(es, q)
  {
    if es != [] && es[0].pid != pid {
      LookupPut(es[1..], pid, conn, q);
    }
  }

  lemma {:induction false} PutKeepsUnique(es: Entries, pid: string, conn: Conn)
    requires UniqueKeys(es)
    ensures UniqueKeys(Put(es, pid, conn))
  {
    var r := Put(es, pid, conn);
    var ks := Keys(es);
    KeysUnique(es);
    forall i, j | 0 <= i < j < |r|
      ensures r[i].pid != r[j].pid
    {
      assert Keys(r)[i] == r[i].pid && Keys(r)[j] == r[j].pid;
      if pid !in ks && j == |ks| {
        assert Keys(r)[i] == ks[i] && Keys(r)[j] == pid;
      } else {
        assert Keys(r)[i] == ks[i] && Keys(r)[j] == ks[j];
      }
    }
  }

  /** After `participants.pop(pid)`, pid is absent and every other key is as before. */
  lemma {:induction false} LookupRemove(es: Entries, pid: string, q: string)
    ensures Lookup(Remove(es, pid), q) == if q == pid then None else Lookup(es, q)
  {
    if es != [] {
      LookupRemove(es[1..], pid, q);
    }
  }

  lemma {:induction false} RemoveKeepsUnique(es: Entries, pid: string)
    requires UniqueKeys(es)
    ensures UniqueKeys(Remove(es, pid))
  {
    if es != [] {
      RemoveKeepsUnique(es[1..], pid);
      if es[0].pid != pid {
        var rest := Remove(es[1..], pid);
        forall e | e in rest
          ensures e.pid != es[0].pid
        {
          assert e in es[1..];
        }
      }
    }
  }

  /** Removing an absent key leaves the dict as it was. */
  lemma {:induction false} RemoveAbsent(es: Entries, pid: string)
    requires pid !in Keys(es)
    ensures Remove(es, pid) == es
  {
    if es != [] {
      assert Keys(es)[0] == es[0].pid;
      assert Keys(es[1..]) == Keys(es)[1..];
      RemoveAbsent(es[1..], pid);
    }
  }

  /**
   * Popping the key of entry `i` takes out exactly that entry: the entries
   * before and after it stay, in their order.
   */
  lemma {:induction false} RemoveAt(es: Entries, i: nat)
    requires UniqueKeys(es) && i < |es|
    ensures Remove(es, es[i].pid) == es[..i] + es[i + 1..]
  {
    if i == 0 {
      RemoveHead(es);
    } else {
      var tail := es[1..];
      TailUnique(es);
      assert tail[i - 1] == es[i];
      RemoveAt(tail, i - 1);
      assert [es[0]] + (tail[..i - 1] + tail[i..]) == es[..i] + es[i + 1..];
    }
  }

  /** Popping the first key leaves the entries after it. */
  lemma RemoveHead(es: Entries)
    requires UniqueKeys(es) && es != []
    ensures Remove(es, es[0].pid) == es[1..]
  {
    TailUnique(es);
    RemoveAbsent(es[1..], es[0].pid);
  }

  /** The entries after the first have unique keys, none of them the first's. */
  lemma TailUnique(es: Entries)
    requires UniqueKeys(es) && es != []
    ensures UniqueKeys(es[1..]) && es[0].pid !in Keys(es[1..])
  {
    var tail := es[1..];
    forall k | 0 <= k < |Keys(tail)|
      ensures Keys(tail)[k] != es[0].pid
    {
      assert tail[k] == es[k + 1];
    }
    forall a, b | 0 <= a < b < |tail|
      ensures tail[a].pid != tail[b].pid
    {
      assert tail[a] == es[a + 1] && tail[b] == es[b + 1];
    }
  }

  /** `{"host": ..., "participants": {...}}`. */
  datatype Bucket = Bucket(host: Option<Conn>, participants: Entries)

  const EmptyBucket := Bucket(None, [])

  /** The messages the server sends. */
  datatype Outbound =
    | ParticipantJoined(participantId: string)
    | QuestionStart(question: Option<Value>)
    | SessionEnded
    | LeaderboardUpdate(leaderboard: seq<Value>)
    | AnswerSubmitted(participantId: string, questionId: Option<Value>)
    | AnswerReceived(questionId: Option<Value>)

  datatype Delivery = Delivery(to: Conn, msg: Outbound)

  // ---- What each send delivers, given the bucket of the session code ----

  /** One `send_json` that succeeds unless the connection is broken. */
  function SendTo(c: Conn, m: Outbound, broken: set<Conn>): (r: seq<Delivery>)
    ensures r == [] <==> c in broken
    ensures r == [] || r == [Delivery(c, m)]
  {
    if c in broken then [] else [Delivery(c, m)]
  }

  /** A send to every participant, in dict order, skipping the broken ones. */
  function SendToEach(es: Entries, m: Outbound, broken: set<Conn>): (r: seq<Delivery>)
    ensures |r| <= |es|
  {
    if es == [] then []
    else
      var last := es[|es| - 1].conn;
      SendToEach(es[..|es| - 1], m, broken) + if last in broken then [] else [Delivery(last, m)]
  }

  /**
   * A broadcast delivers the message to every participant connection that is
   * not broken, and to nothing else.
   */
  lemma {:induction false} SendToEachTargets(es: Entries, m: Outbound, broken: set<Conn>)
    ensures var r := SendToEach(es, m, broken);
      && (forall d :: d in r ==> d.msg == m && d.to !in broken
                                 && exists i :: 0 <= i < |es| && es[i].conn == d.to)
      && (forall i :: 0 <= i < |es| && es[i].conn !in broken ==> Delivery(es[i].conn, m) in r)
  {
    if es != [] {
      var init := es[..|es| - 1];
      SendToEachTargets(init, m, broken);
      var r := SendToEach(es, m, broken);
      forall d | d in r
        ensures d.msg == m && d.to !in broken && exists i :: 0 <= i < |es| && es[i].conn == d.to
      {
        if d in SendToEach(init, m, broken) {
          var i :| 0 <= i < |init| && init[i].conn == d.to;
          assert es[i].conn == d.to;
        } else {
          assert es[|es| - 1].conn == d.to;
        }
      }
    }
  }

  lemma SendToEachStep(es: Entries, i: nat, m: Outbound, broken: set<Conn>)
    requires i < |es|
    ensures SendToEach(es[..i + 1], m, broken)
            == SendToEach(es[..i], m, broken) + if es[i].conn in broken then [] else [Delivery(es[i].conn, m)]
  {
    assert es[..i + 1][..i] == es[..i];
  }

  /** One turn of the broadcast loop, on an outbox that already held `sent` before it. */
  lemma OutboxStep(sent: seq<Delivery>, es: Entries, i: nat, m: Outbound, broken: set<Conn>)
    requires i < |es|
    ensures es[i].conn in broken ==>
              sent + SendToEach(es[..i + 1], m, broken) == sent + SendToEach(es[..i], m, broken)
    ensures es[i].conn !in broken ==>
              sent + SendToEach(es[..i + 1], m, broken)
              == sent + SendToEach(es[..i], m, broken) + [Delivery(es[i].conn, m)]
  {
    SendToEachStep(es, i, m, broken);
    var before := SendToEach(es[..i], m, broken);
    if es[i].conn in broken {
      assert before + [] == before;
    } else {
      assert sent + (before + [Delivery(es[i].conn, m)]) == sent + before + [Delivery(es[i].conn, m)];
    }
  }

  /** `send_to_host`: only when the code is known and has a host. */
  function HostSends(b: Option<Bucket>, m: Outbound, broken: set<Conn>): (r: seq<Delivery>)
    ensures |r| <= 1
    ensures r != [] ==> b.Some? && b.value.host == Some(r[0].to) && r[0].to !in broken && r[0].msg == m
  {
    if b.Some? && b.value.host.Some? then SendTo(b.value.host.value, m, broken) else []
  }

  /** `send_to_participant`: only when the code is known and the participant registered. */
  function ParticipantSends(b: Option<Bucket>, pid: string, m: Outbound, broken: set<Conn>): (r: seq<Delivery>)
    ensures |r| <= 1
    ensures r != [] ==> b.Some? && Entry(pid, r[0].to) in b.value.participants && r[0].to !in broken && r[0].msg == m
  {
    if b.Some? && Lookup(b.value.participants, pid).Some? then
      SendTo(Lookup(b.value.participants, pid).value, m, broken)
    else []
  }

  /** `broadcast_to_participants`. */
  function BroadcastSends(b: Option<Bucket>, m: Outbound, broken: set<Conn>): (r: seq<Delivery>)
    ensures b.None? ==> r == []
    ensures b.Some? ==> |r| <= |b.value.participants|
  {
    if b.Some? then SendToEach(b.value.participants, m, broken) else []
  }

  /** `broadcast_to_all`: the host first, then every participant. */
  function BroadcastAllSends(b: Option<Bucket>, m: Outbound, broken: set<Conn>): (r: seq<Delivery>)
    ensures b.None? ==> r == []
    ensures b.Some? ==> |r| <= 1 + |b.value.participants|
  {
    HostSends(b, m, broken) + BroadcastSends(b, m, broken)
  }

  /** What `handle_host_message` sends for one message. */
  function HostReaction(b: Option<Bucket>, message: Object, broken: set<Conn>): (r: seq<Delivery>)
    ensures b.None? ==> r == []
    ensures b.Some? ==> |r| <= 1 + |b.value.participants|
  {
    if HasType(message, "next_question") then
      BroadcastSends(b, QuestionStart(Get(message, "question")), broken)
    else if HasType(message, "end_session") then
      BroadcastAllSends(b, SessionEnded, broken)
    else if HasType(message, "score_answer") then
      BroadcastAllSends(b, LeaderboardUpdate([]), broken)
    else []
  }

  /** What `handle_participant_message` sends for one message. */
  function ParticipantReaction(b: Option<Bucket>, pid: string, message: Object, broken: set<Conn>): (r: seq<Delivery>)
    ensures b.None? ==> r == []
    ensures |r| <= 2
    ensures r != [] ==> HasType(message, "submit_answer")
  {
    if HasType(message, "submit_answer") then
      var questionId := Get(message, "question_id");
      HostSends(b, AnswerSubmitted(pid, questionId), broken)
        + ParticipantSends(b, pid, AnswerReceived(questionId), broken)
    else []
  }

  // ---- Properties of the routing ----

  ghost predicate IsParticipantConn(b: Bucket, c: Conn)
  {
    exists i :: 0 <= i < |b.participants| && b.participants[i].conn == c
  }

  /**
   * `next_question` sends `question_start` with the message's question to every
   * reachable participant and to nothing else: not to the host unless its
   * connection is also registered as a participant.
   */
  lemma NextQuestionReachesParticipantsOnly(b: Bucket, message: Object, broken: set<Conn>)
    requires HasType(message, "next_question")
    ensures var r := HostReaction(Some(b), message, broken);
      && (forall d :: d in r ==> d.msg == QuestionStart(Get(message, "question"))
                                 && d.to !in broken && IsParticipantConn(b, d.to))
      && (forall i :: 0 <= i < |b.participants| && b.participants[i].conn !in broken ==>
            Delivery(b.participants[i].conn, QuestionStart(Get(message, "question"))) in r)
      && (b.host.Some? && !IsParticipantConn(b, b.host.value) ==>
            forall d :: d in r ==> d.to != b.host.value)
  {
    SendToEachTargets(b.participants, QuestionStart(Get(message, "question")), broken);
  }

  /** `end_session` and `score_answer` reach the host first, then every participant. */
  lemma BroadcastAllHostFirst(b: Bucket, message: Object, broken: set<Conn>)
    requires HasType(message, "end_session") || HasType(message, "score_answer")
    ensures var m := if HasType(message, "end_session") then SessionEnded else LeaderboardUpdate([]);
      var r := HostReaction(Some(b), message, broken);
      && (b.host.Some? && b.host.value !in broken ==> |r| > 0 && r[0] == Delivery(b.host.value, m))
      && (forall d :: d in r ==> d.msg == m)
      && (forall i :: 0 <= i < |b.participants| && b.participants[i].conn !in broken ==>
            Delivery(b.participants[i].conn, m) in r)
  {
    var m := if HasType(message, "end_session") then SessionEnded else LeaderboardUpdate([]);
    assert HostReaction(Some(b), message, broken)
           == HostSends(Some(b), m, broken) + SendToEach(b.participants, m, broken);
    SendToEachTargets(b.participants, m, broken);
  }

  /** Any other message type from the host sends nothing. */
  lemma OtherHostMessagesAreIgnored(b: Option<Bucket>, message: Object, broken: set<Conn>)
    requires !HasType(message, "next_question") && !HasType(message, "end_session")
    requires !HasType(message, "score_answer")
    ensures HostReaction(b, message, broken) == []
  {
  }

  /**
   * `submit_answer` tells the host (`answer_submitted`) first and then the
   * submitter (`answer_received`); nobody else hears of it.
   */
  lemma SubmitAnswerNotifiesHostThenSubmitter(b: Bucket, pid: string, message: Object, broken: set<Conn>)
    requires HasType(message, "submit_answer")
    ensures var q := Get(message, "question_id");
      var r := ParticipantReaction(Some(b), pid, message, broken);
      && |r| <= 2
      && (b.host.Some? && b.host.value !in broken ==> r[0] == Delivery(b.host.value, AnswerSubmitted(pid, q)))
      && (forall d :: d in r ==>
            || (b.host.Some? && d == Delivery(b.host.value, AnswerSubmitted(pid, q)))
            || (Lookup(b.participants, pid).Some?
                && d == Delivery(Lookup(b.participants, pid).value, AnswerReceived(q))))
      && (Lookup(b.participants, pid).Some? && Lookup(b.participants, pid).value !in broken ==>
            r[|r| - 1] == Delivery(Lookup(b.participants, pid).value, AnswerReceived(q)))
  {
  }

  /** Any other message type from a participant sends nothing. */
  lemma OtherParticipantMessagesAreIgnored(b: Option<Bucket>, pid: string, message: Object, broken: set<Conn>)
    requires !HasType(message, "submit_answer")
    ensures ParticipantReaction(b, pid, message, broken) == []
  {
  }

  /** Every send, broadcast and handler on a session code with no bucket delivers nothing. */
  lemma UnknownCodeIsSilent(pid: string, m: Outbound, message: Object, broken: set<Conn>)
    ensures HostSends(None, m, broken) == [] && ParticipantSends(None, pid, m, broken) == []
    ensures BroadcastSends(None, m, broken) == [] && BroadcastAllSends(None, m, broken) == []
    ensures HostReaction(None, message, broken) == []
    ensures ParticipantReaction(None, pid, message, broken) == []
  {
  }

  class ConnectionManager {
    /** session code -> {host, participants}. */
    var sessions: map<string, Bucket>
    /** Every message delivered so far, in order. */
    var outbox: seq<Delivery>

    ghost predicate Valid()
      reads this
    {
      forall code :: code in sessions ==> UniqueKeys(sessions[code].participants)
    }

    function BucketOf(code: string): (r: Option<Bucket>)
      reads this
      ensures r.Some? <==> code in sessions
      ensures r.Some? ==> r.value == sessions[code]
    {
      if code in sessions then Some(sessions[code]) else None
    }

    constructor ()
      ensures Valid() && sessions == map[] && outbox == []
    {
      sessions := map[];
      outbox := [];
    }

    /** Creates the bucket if needed and sets or replaces its host; participants are untouched. */
    method ConnectHost(code: string, ws: Conn)
      requires Valid()
      modifies this`sessions
      ensures Valid()
      ensures var before := if code in old(sessions) then old(sessions)[code] else EmptyBucket;
              sessions == old(sessions)[code := before.(host := Some(ws))]
    {
      if code !in sessions {
        sessions := sessions[code := EmptyBucket];
      }
      sessions := sessions[code := sessions[code].(host := Some(ws))];
    }

    /**
     * Creates the bucket if needed, maps the participant to the connection
     * (replacing an earlier one) and, when the session has a host, tells it
     * `participant_joined`.
     */
    method ConnectParticipant(code: string, pid: string, ws: Conn, broken: set<Conn>)
      requires Valid()
      modifies this
      ensures Valid()
      ensures var before := if code in old(sessions) then old(sessions)[code] else EmptyBucket;
              && sessions == old(sessions)[code := before.(participants := Put(before.participants, pid, ws))]
              && outbox == old(outbox) + HostSends(Some(before), ParticipantJoined(pid), broken)
    {
      if code !in sessions {
        sessions := sessions[code := EmptyBucket];
      }
      PutKeepsUnique(sessions[code].participants, pid, ws);
      sessions := sessions[code := sessions[code].(participants := Put(sessions[code].participants, pid, ws))];
      if sessions[code].host.Some? {
        SendToHost(code, ParticipantJoined(pid), broken);
      }
    }

    /**
     * With a participant id (non-empty), removes that participant only; without
     * one, removes the whole bucket. An unknown code changes nothing.
     */
    method Disconnect(code: string, pid: Option<string>)
      requires Valid()
      modifies this`sessions
      ensures Valid()
      ensures code !in old(sessions) ==> sessions == old(sessions)
      ensures code in old(sessions) && pid.Some? && pid.value != "" ==>
                sessions == old(sessions)[code := old(sessions)[code].(
                  participants := Remove(old(sessions)[code].participants, pid.value))]
      ensures code in old(sessions) && (pid.None? || pid.value == "") ==>
                sessions == old(sessions) - {code}
    {
      if code in sessions {
        if pid.Some? && pid.value != "" {
          RemoveKeepsUnique(sessions[code].participants, pid.value);
          sessions := sessions[code := sessions[code].(participants := Remove(sessions[code].participants, pid.value))];
        } else {
          sessions := sessions - {code};
        }
      }
    }

    method SendToHost(code: string, message: Outbound, broken: set<Conn>)
      modifies this`outbox
      ensures outbox == old(outbox) + HostSends(BucketOf(code), message, broken)
    {
      if code in sessions && sessions[code].host.Some? {
        var ws := sessions[code].host.value;
        if ws !in broken {
          outbox := outbox + [Delivery(ws, message)];
        }
      }
    }

    method SendToParticipant(code: string, pid: string, message: Outbound, broken: set<Conn>)
      modifies this`outbox
      ensures outbox == old(outbox) + ParticipantSends(BucketOf(code), pid, message, broken)
    {
      if code in sessions {
        var ws := Lookup(sessions[code].participants, pid);
        if ws.Some? && ws.value !in broken {
          outbox := outbox + [Delivery(ws.value, message)];
        }
      }
    }

    method BroadcastToParticipants(code: string, message: Outbound, broken: set<Conn>)
      modifies this`outbox
      ensures outbox == old(outbox) + BroadcastSends(BucketOf(code), message, broken)
    {
      if code in sessions {
        var es := sessions[code].participants;
        var i := 0;
        while i < |es|
          invariant 0 <= i <= |es|
          invariant outbox == old(outbox) + SendToEach(es[..i], message, broken)
        {
          OutboxStep(old(outbox), es, i, message, broken);
          if es[i].conn !in broken {
            outbox := outbox + [Delivery(es[i].conn, message)];
          }
          i := i + 1;
        }
        assert es[..|es|] == es;
        assert BroadcastSends(BucketOf(code), message, broken) == SendToEach(es, message, broken);
      }
    }

    method BroadcastToAll(code: string, message: Outbound, broken: set<Conn>)
      modifies this`outbox
      ensures outbox == old(outbox) + BroadcastAllSends(BucketOf(code), message, broken)
    {
      SendToHost(code, message, broken);
      BroadcastToParticipants(code, message, broken);
    }
  }

  /** `handle_host_message`: routes by message type; the registry is not changed. */
  method HandleHostMessage(manager: ConnectionManager, code: string, message: Object, broken: set<Conn>)
    modifies manager`outbox
    ensures manager.outbox == old(manager.outbox) + HostReaction(manager.BucketOf(code), message, broken)
  {
    if HasType(message, "next_question") {
      var question := Get(message, "question");
      manager.BroadcastToParticipants(code, QuestionStart(question), broken);
    } else if HasType(message, "end_session") {
      manager.BroadcastToAll(code, SessionEnded, broken);
    } else if HasType(message, "score_answer") {
      manager.BroadcastToAll(code, LeaderboardUpdate([]), broken);
    }
  }

  /** `handle_participant_message`: acknowledges a submitted answer; the registry is not changed. */
  method HandleParticipantMessage(manager: ConnectionManager, code: string, pid: string, message: Object,
                                  broken: set<Conn>)
    modifies manager`outbox
    ensures manager.outbox == old(manager.outbox) + ParticipantReaction(manager.BucketOf(code), pid, message, broken)
  {
    if HasType(message, "submit_answer") {
      var questionId := Get(message, "question_id");
      manager.SendToHost(code, AnswerSubmitted(pid, questionId), broken);
      manager.SendToParticipant(code, pid, AnswerReceived(questionId), broken);
    }
  }
}
