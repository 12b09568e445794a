/**
 * The browser's WebSocket client for a live quiz session: the connection URL,
 * the per-type handler registry, the send guard and the bounded reconnect
 * counter.
 *
 * Handlers are known by identity; calling one is recorded in `invoked`.
 * Sockets are recorded in `sockets` in creation order, frames passed to
 * `ws.send` in `transmitted`, and reconnects handed to the timer in
 * `scheduled`. The socket's own events (open, close) are methods the
 * environment calls.
 */
module Client {
  import opened Wrappers
  import opened Json

  type HandlerId = nat

  const DefaultWsUrl := "ws://localhost:8000"
  const MaxReconnectAttempts := 5
  /** Milliseconds the timer waits before a reconnect; only recorded. */
  const ReconnectInterval := 3000

  /** JavaScript truthiness of a string that may be null: present and non-empty. */
  predicate Truthy(s: Option<string>)
  {
    s.Some? && s.value != ""
  }

  /** The arguments of `connect(sessionCode, participantName = null, isHost = false)`. */
  datatype ConnectArgs = ConnectArgs(sessionCode: string, participantName: Option<string> := None,
                                     isHost: bool := false)

  // ---- The connection URL ----

  /** `VITE_WS_URL || 'ws://localhost:8000'`. */
  function BaseUrl(env: Option<string>): (r: string)
    ensures Truthy(env) ==> r == env.value
    ensures !Truthy(env) ==> r == DefaultWsUrl
  {
    if Truthy(env) then env.value else DefaultWsUrl
  }

  /**
   * The URL `connect` opens: the session path, then `?token=` with the stored
   * token for a host that has one, else `?name=` with the encoded name when a
   * name is given, else no query. `encode` stands for `encodeURIComponent`.
   */
  function SessionUrl(env: Option<string>, token: Option<string>, args: ConnectArgs,
                      encode: string -> string): (r: string)
    ensures var path := BaseUrl(env) + "/ws/session/" + args.sessionCode;
      |path| <= |r| && r[..|path|] == path && (|r| == |path| || r[|path|] == '?')
  {
    var path := BaseUrl(env) + "/ws/session/" + args.sessionCode;
    if args.isHost && Truthy(token) then path + "?token=" + token.value
    else if Truthy(args.participantName) then path + "?name=" + encode(args.participantName.value)
    else path
  }

  /** Splits a URL at its first `?` into the path and, when there is one, the query. */
  function SplitQuery(url: string): (r: (string, Option<string>))
    ensures '?' !in r.0
    ensures r.1.None? ==> r.0 == url
    ensures r.1.Some? ==> url == r.0 + "?" + r.1.value
  {
    if url == [] then ([], None)
    else if url[0] == '?' then ([], Some(url[1..]))
    else
      var rest := SplitQuery(url[1..]);
      assert rest.1.Some? ==> url == [url[0]] + rest.0 + "?" + rest.1.value;
      ([url[0]] + rest.0, rest.1)
  }

  lemma {:induction false} SplitQueryOf(path: string, query: Option<string>)
    requires '?' !in path
    ensures SplitQuery(if query.Some? then path + "?" + query.value else path) == (path, query)
  {
    var url := if query.Some? then path + "?" + query.value else path;
    if path != [] {
      assert url[0] == path[0] && url[0] != '?';
      assert url[1..] == if query.Some? then path[1..] + "?" + query.value else path[1..];
      SplitQueryOf(path[1..], query);
      assert [path[0]] + path[1..] == path;
    } else if query.Some? {
      assert url == "?" + query.value;
    }
  }

  /**
   * Reading the URL back: its path names the session, and its query carries
   * exactly the host's token, or else the encoded participant name, or nothing.
   */
  lemma UrlCarriesCredential(env: Option<string>, token: Option<string>, args: ConnectArgs,
                             encode: string -> string)
    requires '?' !in BaseUrl(env) && '?' !in args.sessionCode
    ensures var split := SplitQuery(SessionUrl(env, token, args, encode));
      && split.0 == BaseUrl(env) + "/ws/session/" + args.sessionCode
      && (args.isHost && Truthy(token) ==> split.1 == Some("token=" + token.value))
      && (!(args.isHost && Truthy(token)) && Truthy(args.participantName) ==>
            split.1 == Some("name=" + encode(args.participantName.value)))
      && (!(args.isHost && Truthy(token)) && !Truthy(args.participantName) ==> split.1 == None)
  {
    var path := BaseUrl(env) + "/ws/session/" + args.sessionCode;
    assert '?' !in path by {
      assert '?' !in "/ws/session/";
    }
    if args.isHost && Truthy(token) {
      assert SessionUrl(env, token, args, encode) == path + "?" + ("token=" + token.value);
      SplitQueryOf(path, Some("token=" + token.value));
    } else if Truthy(args.participantName) {
      var q := "name=" + encode(args.participantName.value);
      assert SessionUrl(env, token, args, encode) == path + "?" + q;
      SplitQueryOf(path, Some(q));
    } else {
      SplitQueryOf(path, None);
    }
  }

  // ---- Handler lists ----

  /** `handlers.indexOf(h)`: the first position of `h`, or -1. */
  function IndexOf(hs: seq<HandlerId>, h: HandlerId): (r: int)
    ensures -1 <= r < |hs|
    ensures r == -1 <==> h !in hs
    ensures r >= 0 ==> hs[r] == h && h !in hs[..r]
  {
    if hs == [] then -1
    else if hs[0] == h then 0
    else
      var k := IndexOf(hs[1..], h);
      assert k >= 0 ==> hs[..k + 1] == [hs[0]] + hs[1..][..k];
      if k == -1 then -1 else k + 1
  }

  /** The list after `off`: its first `h` spliced out, if it has one. */
  function RemoveFirst(hs: seq<HandlerId>, h: HandlerId): (r: seq<HandlerId>)
    ensures h !in hs ==> r == hs
    ensures h in hs ==> |r| == |hs| - 1
  {
    var i := IndexOf(hs, h);
    if i > -1 then hs[..i] + hs[i + 1..] else hs
  }

  /** `off` takes exactly one copy of `h` out of the list, or none when there is none. */
  lemma RemoveFirstCounts(hs: seq<HandlerId>, h: HandlerId)
    ensures multiset(RemoveFirst(hs, h)) == multiset(hs) - multiset{h}
    ensures |RemoveFirst(hs, h)| == if h in hs then |hs| - 1 else |hs|
  {
    var i := IndexOf(hs, h);
    if i > -1 {
      assert RemoveFirst(hs, h) == hs[..i] + hs[i + 1..];
      SpliceCounts(hs, i);
    } else {
      assert RemoveFirst(hs, h) == hs;
      assert h !in multiset(hs);
    }
  }

  /** Splicing out position `i` takes one copy of its element out of the multiset. */
  lemma SpliceCounts(hs: seq<HandlerId>, i: nat)
    requires i < |hs|
    ensures multiset(hs[..i] + hs[i + 1..]) == multiset(hs) - multiset{hs[i]}
  {
    assert hs == hs[..i] + [hs[i]] + hs[i + 1..];
  }

  /** The handlers before the removed one keep their places, the later ones move up by one. */
  lemma RemoveFirstKeepsOrder(hs: seq<HandlerId>, h: HandlerId)
    requires h in hs
    ensures var i := IndexOf(hs, h);
      && (forall k :: 0 <= k < i ==> RemoveFirst(hs, h)[k] == hs[k])
      && (forall k :: i <= k < |hs| - 1 ==> RemoveFirst(hs, h)[k] == hs[k + 1])
  {
    var i := IndexOf(hs, h);
    var r := RemoveFirst(hs, h);
    assert r == hs[..i] + hs[i + 1..];
    forall k | 0 <= k < i
      ensures r[k] == hs[k]
    {
      assert r[k] == hs[..i][k];
    }
    forall k | i <= k < |hs| - 1
      ensures r[k] == hs[k + 1]
    {
      assert r[k] == hs[i + 1..][k - i];
    }
  }

  /** `off` undoes an `on` of a handler the list did not hold yet. */
  lemma OffUndoesOn(hs: seq<HandlerId>, h: HandlerId)
    requires h !in hs
    ensures RemoveFirst(hs + [h], h) == hs
  {
    assert forall k :: 0 <= k < |hs| ==> (hs + [h])[k] == hs[k];
    assert IndexOf(hs + [h], h) == |hs|;
  }

  /** The list registered for a type; an unregistered type has none. */
  function HandlersOf(registry: map<string, seq<HandlerId>>, t: string): (r: seq<HandlerId>)
    ensures t !in registry ==> r == []
    ensures t in registry ==> r == registry[t]
  {
    if t in registry then registry[t] else []
  }

  /**
   * The handlers `handleMessage` runs for `data`: those registered for its
   * "type", which only a string can name.
   */
  function HandlersFor(registry: map<string, seq<HandlerId>>, data: Object): (r: seq<HandlerId>)
    ensures forall t :: HasType(data, t) ==> r == HandlersOf(registry, t)
    ensures Get(data, "type").None? || !Get(data, "type").value.Str? ==> r == []
  {
    match Get(data, "type")
    case Some(Str(t)) => HandlersOf(registry, t)
    case _ => []
  }

  datatype Call = Call(handler: HandlerId, data: Object)

  function Calls(hs: seq<HandlerId>, data: Object): (r: seq<Call>)
    ensures |r| == |hs|
    ensures forall i :: 0 <= i < |hs| ==> r[i] == Call(hs[i], data)
  {
    seq(|hs|, i requires 0 <= i < |hs| => Call(hs[i], data))
  }

  /** `{ type, ...data }`: the fields of `data`, with "type" set unless `data` has its own. */
  function Frame(t: string, data: Object): (r: Object)
    ensures r.Keys == data.Keys + {"type"}
    ensures Get(r, "type") == if "type" in data then Some(data["type"]) else Some(Str(t))
    ensures forall k :: k in data ==> r[k] == data[k]
  {
    map["type" := Str(t)] + data
  }

  /** The message `attemptReconnect` dispatches when it gives up. */
  const ConnectionLost: Object := map["type" := Str("connection_lost")]

  // ---- The service ----

  datatype ReadyState = Connecting | Open | Closing | Closed

  /** A socket `connect` created: the URL it opened and the arguments its `onclose` reconnects with. */
  datatype Socket = Socket(url: string, args: ConnectArgs, state: ReadyState)

  class WebSocketService {
    /** Every socket created so far; `ws` is the position of the current one. */
    var sockets: seq<Socket>
    var ws: Option<nat>
    var reconnectAttempts: int
    var messageHandlers: map<string, seq<HandlerId>>
    /** Handler calls made so far, in order. */
    var invoked: seq<Call>
    /** Frames passed to `ws.send`, in order. */
    var transmitted: seq<Object>
    /** Reconnects handed to the timer, in order; each runs `connect` with its arguments. */
    var scheduled: seq<ConnectArgs>

    ghost predicate Valid()
      reads this
    {
      && 0 <= reconnectAttempts <= MaxReconnectAttempts
      && (ws.Some? ==> ws.value < |sockets|)
    }

    /** The send guard: there is a current socket and it is open. */
    predicate IsOpen()
      reads this
    {
      ws.Some? && ws.value < |sockets| && sockets[ws.value].state == Open
    }

    constructor ()
      ensures Valid()
      ensures sockets == [] && ws == None && reconnectAttempts == 0 && messageHandlers == map[]
      ensures invoked == [] && transmitted == [] && scheduled == []
    {
      sockets := [];
      ws := None;
      reconnectAttempts := 0;
      messageHandlers := map[];
      invoked := [];
      transmitted := [];
      scheduled := [];
    }

    /**
     * Opens a new socket on the session URL and makes it current. The previous
     * socket is not closed, and the counter is not reset until the new one opens.
     */
    method Connect(args: ConnectArgs, env: Option<string>, token: Option<string>, encode: string -> string)
      requires Valid()
      modifies this`sockets, this`ws
      ensures Valid()
      ensures sockets == old(sockets) + [Socket(SessionUrl(env, token, args, encode), args, Connecting)]
      ensures ws == Some(|old(sockets)|)
    {
      var url := SessionUrl(env, token, args, encode);
      ws := Some(|sockets|);
      sockets := sockets + [Socket(url, args, Connecting)];
    }

    /** The `onopen` of socket `s`: it is open and the counter is back to 0. */
    method OnOpen(s: nat)
      requires Valid() && s < |sockets| && sockets[s].state == Connecting
      modifies this`sockets, this`reconnectAttempts
      ensures Valid()
      ensures sockets == old(sockets)[s := old(sockets)[s].(state := Open)]
      ensures reconnectAttempts == 0
    {
      sockets := sockets[s := sockets[s].(state := Open)];
      reconnectAttempts := 0;
    }

    /** The `onclose` of socket `s`: it is closed and a reconnect with its own arguments is attempted. */
    method OnClose(s: nat)
      requires Valid() && s < |sockets| && sockets[s].state != Closed
      modifies this`sockets, this`reconnectAttempts, this`scheduled, this`invoked
      ensures Valid()
      ensures sockets == old(sockets)[s := old(sockets)[s].(state := Closed)]
      ensures old(reconnectAttempts) < MaxReconnectAttempts ==>
                reconnectAttempts == old(reconnectAttempts) + 1
                && scheduled == old(scheduled) + [old(sockets)[s].args] && invoked == old(invoked)
      ensures old(reconnectAttempts) >= MaxReconnectAttempts ==>
                reconnectAttempts == old(reconnectAttempts) && scheduled == old(scheduled)
                && invoked == old(invoked) + Calls(HandlersFor(messageHandlers, ConnectionLost), ConnectionLost)
    {
      var args := sockets[s].args;
      sockets := sockets[s := sockets[s].(state := Closed)];
      AttemptReconnect(args);
    }

    /**
     * The close handler as evidently intended: a reconnect is attempted only
     * while the closing socket is still the current one, so a socket that
     * `disconnect` let go of stays closed.
     */
    method OnCloseIntended(s: nat)
      requires Valid() && s < |sockets| && sockets[s].state != Closed
      modifies this`sockets, this`reconnectAttempts, this`scheduled, this`invoked
      ensures Valid()
      ensures sockets == old(sockets)[s := old(sockets)[s].(state := Closed)]
      ensures old(ws) != Some(s) ==>
                reconnectAttempts == old(reconnectAttempts) && scheduled == old(scheduled) && invoked == old(invoked)
      ensures old(ws) == Some(s) && old(reconnectAttempts) < MaxReconnectAttempts ==>
                reconnectAttempts == old(reconnectAttempts) + 1
                && scheduled == old(scheduled) + [old(sockets)[s].args] && invoked == old(invoked)
      ensures old(ws) == Some(s) && old(reconnectAttempts) >= MaxReconnectAttempts ==>
                reconnectAttempts == old(reconnectAttempts) && scheduled == old(scheduled)
                && invoked == old(invoked) + Calls(HandlersFor(messageHandlers, ConnectionLost), ConnectionLost)
    {
      var args := sockets[s].args;
      sockets := sockets[s := sockets[s].(state := Closed)];
      if ws == Some(s) {
        AttemptReconnect(args);
      }
    }

    /**
     * `attemptReconnect`: below the limit, counts one more attempt and hands a
     * reconnect to the timer; at the limit, dispatches `connection_lost`
     * without counting.
     */
    method AttemptReconnect(args: ConnectArgs)
      requires Valid()
      modifies this`reconnectAttempts, this`scheduled, this`invoked
      ensures Valid()
      ensures old(reconnectAttempts) < MaxReconnectAttempts ==>
                reconnectAttempts == old(reconnectAttempts) + 1
                && scheduled == old(scheduled) + [args] && invoked == old(invoked)
      ensures old(reconnectAttempts) >= MaxReconnectAttempts ==>
                reconnectAttempts == old(reconnectAttempts) && scheduled == old(scheduled)
                && invoked == old(invoked) + Calls(HandlersFor(messageHandlers, ConnectionLost), ConnectionLost)
    {
      if reconnectAttempts < MaxReconnectAttempts {
        reconnectAttempts := reconnectAttempts + 1;
        scheduled := scheduled + [args];
      } else {
        HandleMessage(ConnectionLost);
      }
    }

    /**
     * `disconnect`: closes and forgets the current socket, and drops every
     * handler. Closing a socket that is already closed does nothing, so no
     * second close event can follow.
     */
    method Disconnect()
      requires Valid()
      modifies this`sockets, this`ws, this`messageHandlers
      ensures Valid()
      ensures old(ws).Some? && old(sockets)[old(ws).value].state != Closed ==>
                sockets == old(sockets)[old(ws).value := old(sockets)[old(ws).value].(state := Closing)]
      ensures old(ws).None? || old(sockets)[old(ws).value].state == Closed ==> sockets == old(sockets)
      ensures ws == None && messageHandlers == map[]
    {
      if ws.Some? {
        if sockets[ws.value].state != Closed {
          sockets := sockets[ws.value := sockets[ws.value].(state := Closing)];
        }
        ws := None;
      }
      messageHandlers := map[];
    }

    /** `send`: transmits `{ type, ...data }` when the current socket is open, and nothing otherwise. */
    method Send(t: string, data: Object := map[])
      modifies this`transmitted
      ensures transmitted == old(transmitted) + if old(IsOpen()) then [Frame(t, data)] else []
    {
      if ws.Some? && ws.value < |sockets| && sockets[ws.value].state == Open {
        transmitted := transmitted + [Frame(t, data)];
      }
    }

    /** `on`: appends `h` to the list for `t`, creating it if needed; other types are untouched. */
    method On(t: string, h: HandlerId)
      modifies this`messageHandlers
      ensures messageHandlers == old(messageHandlers)[t := HandlersOf(old(messageHandlers), t) + [h]]
    {
      if t !in messageHandlers {
        messageHandlers := messageHandlers[t := []];
      }
      messageHandlers := messageHandlers[t := messageHandlers[t] + [h]];
    }

    /** `off`: removes the first `h` from the list for `t`; nothing else changes. */
    method Off(t: string, h: HandlerId)
      modifies this`messageHandlers
      ensures t in old(messageHandlers) ==>
                messageHandlers == old(messageHandlers)[t := RemoveFirst(old(messageHandlers)[t], h)]
      ensures t !in old(messageHandlers) ==> messageHandlers == old(messageHandlers)
    {
      if t in messageHandlers {
        var handlers := messageHandlers[t];
        var index := IndexOf(handlers, h);
        if index > -1 {
          assert handlers[..index] + handlers[index + 1..] == RemoveFirst(handlers, h);
          messageHandlers := messageHandlers[t := handlers[..index] + handlers[index + 1..]];
        } else {
          assert messageHandlers[t := RemoveFirst(handlers, h)] == messageHandlers;
        }
      }
    }

    /** `handleMessage`: calls each handler registered for the message's type, in order. */
    method HandleMessage(data: Object)
      modifies this`invoked
      ensures invoked == old(invoked) + Calls(HandlersFor(messageHandlers, data), data)
    {
      var handlers := HandlersFor(messageHandlers, data);
      var i := 0;
      while i < |handlers|
        invariant 0 <= i <= |handlers|
        invariant invoked == old(invoked) + Calls(handlers[..i], data)
      {
        invoked := invoked + [Call(handlers[i], data)];
        i := i + 1;
      }
      assert handlers[..i] == handlers;
    }

    method SubmitAnswer(questionId: Value, answer: Value)
      modifies this`transmitted
      ensures transmitted == old(transmitted) + if old(IsOpen()) then [SubmitAnswerFrame(questionId, answer)] else []
    {
      Send("submit_answer", map["question_id" := questionId, "answer" := answer]);
    }

    method NextQuestion()
      modifies this`transmitted
      ensures transmitted == old(transmitted) + if old(IsOpen()) then [NextQuestionFrame] else []
    {
      Send("next_question");
    }

    method EndSession()
      modifies this`transmitted
      ensures transmitted == old(transmitted) + if old(IsOpen()) then [EndSessionFrame] else []
    {
      Send("end_session");
    }

    method ScoreAnswer(participantId: Value, questionId: Value, score: Value)
      modifies this`transmitted
      ensures transmitted == old(transmitted)
                + if old(IsOpen()) then [ScoreAnswerFrame(participantId, questionId, score)] else []
    {
      Send("score_answer", map["participant_id" := participantId, "question_id" := questionId, "score" := score]);
    }
  }

  // ---- The frames the convenience senders produce ----

  function SubmitAnswerFrame(questionId: Value, answer: Value): (r: Object)
    ensures r == map["type" := Str("submit_answer"), "question_id" := questionId, "answer" := answer]
  {
    Frame("submit_answer", map["question_id" := questionId, "answer" := answer])
  }

  const NextQuestionFrame: Object := Frame("next_question", map[])
  const EndSessionFrame: Object := Frame("end_session", map[])

  function ScoreAnswerFrame(participantId: Value, questionId: Value, score: Value): (r: Object)
    ensures r == map["type" := Str("score_answer"), "participant_id" := participantId,
                     "question_id" := questionId, "score" := score]
  {
    Frame("score_answer", map["participant_id" := participantId, "question_id" := questionId, "score" := score])
  }

  // ---- Closing after `disconnect` ----

  const ScenarioArgs := ConnectArgs("ABCDE", Some("Ann"))

  /**
   * As written: connect, open, `disconnect`, and the socket's close event
   * then hands a reconnect to the timer, which reopens the session.
   */
  method ReconnectAfterDisconnect() returns (scheduled: seq<ConnectArgs>, current: Option<nat>)
    ensures current == None
    ensures scheduled == [ScenarioArgs]
  {
    var client := new WebSocketService();
    client.Connect(ScenarioArgs, None, None, name => name);
    client.OnOpen(0);
    client.Disconnect();
    client.OnClose(0);
    scheduled, current := client.scheduled, client.ws;
  }

  /**
   * The server closes the socket first and `disconnect` follows before the
   * timer fires: the socket stays closed, so its close event cannot come
   * again, and the one reconnect already handed to the timer is the only one.
   */
  method ServerCloseThenDisconnect() returns (state: ReadyState, scheduled: seq<ConnectArgs>)
    ensures state == Closed
    ensures scheduled == [ScenarioArgs]
  {
    var client := new WebSocketService();
    client.Connect(ScenarioArgs, None, None, name => name);
    client.OnOpen(0);
    client.OnClose(0);
    client.Disconnect();
    state, scheduled := client.sockets[0].state, client.scheduled;
  }

  /** With the intended close handler the same sequence of events schedules nothing. */
  method NoReconnectAfterDisconnect() returns (scheduled: seq<ConnectArgs>, current: Option<nat>)
    ensures current == None
    ensures scheduled == []
  {
    var client := new WebSocketService();
    client.Connect(ScenarioArgs, None, None, name => name);
    client.OnOpen(0);
    client.Disconnect();
    client.OnCloseIntended(0);
    scheduled, current := client.scheduled, client.ws;
  }
}
