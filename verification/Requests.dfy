/**
 Requests and their replies inside one actor. `on_reply` blocks inside a handler: it starts a receive
 loop of its own, in which everything but the awaited response is stashed or stored, and the handler
 of the response may block again. The control stack is explicit; user code is the environment.
 */
module Requests {
  import opened Wrappers

  type Message = int
  type Body = int
  type ReqId = nat

  datatype Mail = Ordinary(m: Message) | Response(id: ReqId, body: Body)

  datatype Frame =
    | Script                              // user code outside any handler
    | Loop                                // `receive` on the actor's own handlers
    | Handling(m: Message, fromStash: bool)
    | Waiting(id: ReqId, wasActive: bool) // the receive loop of `on_reply`
    | Replying(id: ReqId, stored: bool)   // the handler given to `on_reply` runs

  /** `live` are the request handlers that can still be asked for the reply. The last six are history. */
  datatype State = State(
    stack: seq<Frame>, mailbox: seq<Mail>, stash: seq<Message>, activated: bool, waiting: nat,
    unfinished: map<ReqId, Option<Body>>, nextId: ReqId, live: set<ReqId>,
    arrivals: seq<Message>, started: seq<Message>, answered: map<ReqId, Body>,
    handled: seq<(ReqId, Body)>, dropped: set<ReqId>, destroyed: set<ReqId>)

  datatype Action =
    | Arrive(m: Message)
    | Answer(id: ReqId, body: Body)  // the peer replies to a request, once
    | Request
    | Destroy(id: ReqId)             // a request handler goes out of scope
    | OnReply(id: ReqId)
    | Activate
    | Deactivate
    | Return
    | StartLoop
    | Take                           // one turn of the innermost receive loop
    | Exit                           // the innermost receive loop ends

  const INIT := State([Script], [], [], false, 0, map[], 0, {}, [], [], map[], [], {}, {})

  function Top(st: State): Frame {
    if st.stack == [] then Script else st.stack[|st.stack| - 1]
  }

  function Rest(st: State): seq<Frame> {
    if st.stack == [] then [] else st.stack[..|st.stack| - 1]
  }

  predicate UserCode(f: Frame) {
    f.Script? || f.Handling? || f.Replying?
  }

  predicate Receiving(f: Frame) {
    f.Loop? || f.Waiting?
  }

  /** The stash goes first, unless some reply is awaited. */
  predicate FromStash(st: State) {
    st.waiting == 0 && st.stash != []
  }

  predicate Enabled(st: State, a: Action) {
    match a
    case Arrive(_) => true
    case Answer(id, _) => id < st.nextId && id !in st.answered
    case Request => UserCode(Top(st))
    case Destroy(id) => UserCode(Top(st)) && id in st.live
    case OnReply(id) => UserCode(Top(st)) && id in st.live
    case Activate => UserCode(Top(st))
    case Deactivate => UserCode(Top(st))
    case Return => Top(st).Handling? || Top(st).Replying?
    case StartLoop => st.stack == [Script]
    case Take => Receiving(Top(st)) && st.activated && (FromStash(st) || st.mailbox != [])
    case Exit => Receiving(Top(st)) && !st.activated
  }

  /** The response is kept for a request handler that exists, and ignored otherwise. */
  function StoreResponse(st: State, id: ReqId, body: Body): State {
    if id in st.unfinished then st.(unfinished := st.unfinished[id := Some(body)])
    else st.(dropped := st.dropped + {id})
  }

  function TakeMail(st: State, mail: Mail): State {
    match Top(st)
    case Waiting(awaited, _) =>
      (match mail
       case Ordinary(m) => st.(stash := st.stash + [m])
       case Response(id, body) =>
         if id == awaited then st.(stack := st.stack + [Replying(id, false)], handled := st.handled + [(id, body)])
         else StoreResponse(st, id, body))
    case _ =>
      (match mail
       case Ordinary(m) => st.(stack := st.stack + [Handling(m, false)], started := st.started + [m])
       case Response(id, body) => StoreResponse(st, id, body))
  }

  /** The front is handed out before it is popped. */
  function TakeStash(st: State): State
    requires st.stash != []
  {
    if Top(st).Waiting? then st.(stash := (st.stash + [st.stash[0]])[1..])
    else st.(stack := st.stack + [Handling(st.stash[0], true)], started := st.started + [st.stash[0]])
  }

  function AddRequest(st: State): State {
    st.(nextId := st.nextId + 1, unfinished := st.unfinished[st.nextId := None], live := st.live + {st.nextId})
  }

  function DestroyHandler(st: State, id: ReqId): State {
    st.(live := st.live - {id}, unfinished := st.unfinished - {id}, destroyed := st.destroyed + {id},
        dropped := st.dropped + if id in st.unfinished && st.unfinished[id].Some? then {id} else {})
  }

  function CallOnReply(st: State, id: ReqId): State {
    var st1 := st.(live := st.live - {id});
    if id in st.unfinished && st.unfinished[id].Some? then
      st1.(stack := st.stack + [Replying(id, true)], handled := st.handled + [(id, st.unfinished[id].value)])
    else
      st1.(unfinished := st.unfinished - {id}, waiting := st.waiting + 1,
           stack := st.stack + [Waiting(id, st.activated)], activated := true)
  }

  function ReturnFrom(st: State, f: Frame): State {
    var st1 := st.(stack := Rest(st));
    match f
    case Handling(_, fromStash) =>
      st1.(stash := if fromStash && st.stash != [] then st.stash[1..] else st.stash)
    case Replying(id, stored) =>
      if stored then st1.(unfinished := st.unfinished - {id}) else st1.(activated := false)
    case _ => st
  }

  function ExitLoop(st: State): State {
    var st1 := st.(stack := Rest(st));
    match Top(st)
    case Waiting(_, wasActive) =>
      st1.(activated := st.activated || wasActive, waiting := if st.waiting == 0 then 0 else st.waiting - 1)
    case _ => st1
  }

  function Apply(st: State, a: Action): State
    requires Enabled(st, a)
  {
    match a
    case Arrive(m) => st.(mailbox := st.mailbox + [Ordinary(m)], arrivals := st.arrivals + [m])
    case Answer(id, body) =>
      st.(mailbox := st.mailbox + [Response(id, body)], answered := st.answered[id := body])
    case Request => AddRequest(st)
    case Destroy(id) => DestroyHandler(st, id)
    case OnReply(id) => CallOnReply(st, id)
    case Activate => st.(activated := true)
    case Deactivate => st.(activated := false)
    case Return => ReturnFrom(st, Top(st))
    case StartLoop => st.(stack := [Script, Loop], activated := true)
    case Take =>
      if FromStash(st) then TakeStash(st)
      else TakeMail(st.(mailbox := st.mailbox[1..]), st.mailbox[0])
    case Exit => ExitLoop(st)
  }

  ghost predicate Legal(st: State, run: seq<Action>)
    decreases |run|
  {
    run == [] || (Enabled(st, run[0]) && Legal(Apply(st, run[0]), run[1..]))
  }

  ghost function After(st: State, run: seq<Action>): State
    requires Legal(st, run)
    decreases |run|
  {
    if run == [] then st else After(Apply(st, run[0]), run[1..])
  }

  ghost predicate Reachable(st: State) {
    exists run :: Legal(INIT, run) && After(INIT, run) == st
  }
}
