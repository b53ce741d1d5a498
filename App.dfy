/** The application's state scheduler: named states with Enter/Exit/Update
    callbacks, an immediate switch (`SetState`), a timed cross-fade to a
    pending next state (`Transition`), the main loop (`Run`) and the loading
    screen's fade and post-task latch (`Loading`). Rendering, the window and
    the audio device are left out; what remains is the order in which the
    states' callbacks are invoked and the fields that decide it. */
module App {
  import opened Common

  /** One callback invoked on a named state. */
  datatype Event = Enter(name: string) | Exit(name: string) | Update(name: string, dt: real)

  /** The states entered and not yet exited, with multiplicity (a state can be
      entered a second time while a transition to itself is pending). */
  function Opened(evs: seq<Event>): multiset<string>
  {
    if evs == [] then multiset{}
    else
      Step(Opened(evs[..|evs| - 1]), evs[|evs| - 1])
  }

  /** How one callback changes the entered states. */
  function Step(live: multiset<string>, e: Event): multiset<string>
  {
    if e.Enter? then live + multiset{e.name}
    else if e.Exit? then live - multiset{e.name}
    else live
  }

  /** Every `Exit` and every `Update` goes to a state that is entered at
      that point. */
  ghost predicate Bracketed(evs: seq<Event>)
  {
    evs == [] ||
      var last := evs[|evs| - 1];
      Bracketed(evs[..|evs| - 1]) && (last.Enter? || last.name in Opened(evs[..|evs| - 1]))
  }

  function Slot(o: Option<string>): multiset<string>
  {
    if o.Some? then multiset{o.value} else multiset{}
  }

  /** The entered states are exactly the current and the pending next one. */
  ghost predicate Balanced(evs: seq<Event>, current: Option<string>, next: Option<string>)
  {
    Opened(evs) == Slot(current) + Slot(next)
  }

  /** The callback discipline `App` keeps: balanced and bracketed. */
  ghost predicate Disciplined(evs: seq<Event>, current: Option<string>, next: Option<string>)
  {
    Balanced(evs, current, next) && Bracketed(evs)
  }

  /** How one more callback changes the entered states and the discipline. */
  lemma Append(evs: seq<Event>, e: Event)
    ensures Opened(evs + [e]) == Step(Opened(evs), e)
    ensures Bracketed(evs + [e]) <==> Bracketed(evs) && (e.Enter? || e.name in Opened(evs))
  {
    var s := evs + [e];
    assert s[..|s| - 1] == evs;
  }

  /** `SetState`: exiting the current state and entering another keeps the
      entered states equal to the current and pending ones. */
  lemma {:induction false} SwitchKeepsBalance(evs: seq<Event>, c: string, n: string, next: Option<string>)
    ensures Disciplined(evs, Some(c), next) ==> Disciplined(evs + [Exit(c), Enter(n)], Some(n), next)
  {
    if !Disciplined(evs, Some(c), next) {
      return;
    }
    var mid := evs + [Exit(c)];
    assert mid + [Enter(n)] == evs + [Exit(c), Enter(n)];
    assert Bracketed(mid) && Opened(mid) == Slot(next) by {
      assert c in Opened(evs);
      Append(evs, Exit(c));
    }
    assert Bracketed(mid + [Enter(n)]) && Opened(mid + [Enter(n)]) == Slot(Some(n)) + Slot(next) by {
      Append(mid, Enter(n));
    }
  }

  /** `Transition` (and `Run`'s first state): entering a state while no
      next one is pending. */
  lemma {:induction false} EnterKeepsBalance(evs: seq<Event>, other: Option<string>, n: string)
    ensures Disciplined(evs, other, None) ==> Disciplined(evs + [Enter(n)], other, Some(n))
    ensures Disciplined(evs, None, other) ==> Disciplined(evs + [Enter(n)], Some(n), other)
  {
    Append(evs, Enter(n));
  }

  /** End of a transition, and `Run`'s final exits: the current state is
      exited and the pending one (if any) takes its place. */
  lemma {:induction false} ExitKeepsBalance(evs: seq<Event>, c: string, next: Option<string>)
    ensures Disciplined(evs, Some(c), next) ==> Disciplined(evs + [Exit(c)], next, None)
  {
    if Disciplined(evs, Some(c), next) {
      assert c in Opened(evs);
      Append(evs, Exit(c));
    }
  }

  /** The callbacks `Run` issues when the loop ends. */
  function Closing(c: string, next: Option<string>): (r: seq<Event>)
    ensures |r| == (if next.Some? then 2 else 1) && r[0] == Exit(c)
  {
    [Exit(c)] + if next.Some? then [Exit(next.value)] else []
  }

  /** `Run`'s final exits leave no state entered. */
  lemma {:induction false} CloseKeepsBalance(evs: seq<Event>, c: string, next: Option<string>)
    ensures Disciplined(evs, Some(c), next) ==> Disciplined(evs + Closing(c, next), None, None)
  {
    ExitKeepsBalance(evs, c, next);
    if next.Some? {
      ExitKeepsBalance(evs + [Exit(c)], next.value, None);
      assert evs + [Exit(c)] + [Exit(next.value)] == evs + Closing(c, next);
    } else {
      assert evs + [Exit(c)] == evs + Closing(c, next);
    }
  }

  /** A frame's `Update` goes to an entered state. */
  lemma {:induction false} UpdateKeepsBalance(evs: seq<Event>, current: Option<string>, next: Option<string>, n: string, dt: real)
    requires current == Some(n) || next == Some(n)
    ensures Disciplined(evs, current, next) ==> Disciplined(evs + [Update(n, dt)], current, next)
  {
    Append(evs, Update(n, dt));
  }

  /** What a state's `Update` asks of the application during a frame. */
  datatype Request =
    | Idle
    | Quit(ret: Int32)
    | GoTo(name: string)
    | TransitionTo(name: string, duration: real, shader: Option<nat>)

  /** One iteration of the main loop: the frame time and the request made by
      the current state's `Update`. */
  datatype Frame = Frame(dt: real, request: Request)

  /** What `Request`s a frame sequence may make: names of added states and
      non-zero durations (`find` on a missing name is dereferenced). */
  ghost predicate Feasible(r: Request, states: set<string>)
  {
    match r
    case Idle => true
    case Quit(_) => true
    case GoTo(n) => n in states
    case TransitionTo(n, d, _) => n in states && d != 0.0
  }

  /** Which render target a state draws into. */
  datatype Target = MainTarget | TransitionTarget

  datatype AppState = AppState(
    states: map<string, nat>, instances: nat,
    current: Option<string>, next: Option<string>,
    progress: real, invDuration: real,
    running: bool, retCode: Int32,
    shaderMain: Option<nat>, shaderTransition: Option<nat>,
    events: seq<Event>)

  // ---------------------------------------------------------------------
  // What one frame does to the application's fields
  // ---------------------------------------------------------------------

  /** A state's `Update(dt)` is invoked. */
  function AfterUpdate(s: AppState, n: string, dt: real): (t: AppState)
    ensures t.events == s.events + [Update(n, dt)]
    ensures t.(events := s.events) == s
  {
    s.(events := s.events + [Update(n, dt)])
  }

  /** `SetState(n)`: a no-op for the current state; otherwise the current
      state is exited and `n` entered and made current. */
  function AfterSwitch(s: AppState, n: string): (t: AppState)
    requires s.current.Some?
    ensures t.next == s.next && t.current == Some(n)
    ensures t.progress == s.progress && t.running == s.running && t.retCode == s.retCode
  {
    if n == s.current.value then s
    else s.(current := Some(n), events := s.events + [Exit(s.current.value), Enter(n)])
  }

  /** `Transition(n, d, shader)`: ignored while a state is pending; otherwise
      `n` becomes the pending state and is entered, at rate `1/d`. */
  function AfterTransition(s: AppState, n: string, d: real, shader: Option<nat>): (t: AppState)
    requires d != 0.0
    ensures s.next.Some? ==> t == s
    ensures s.next.None? ==> t.next == Some(n) && t.invDuration * d == 1.0 && t.events == s.events + [Enter(n)]
    ensures t.current == s.current && t.progress == s.progress && t.running == s.running && t.retCode == s.retCode
  {
    if s.next.Some? then s
    else
      s.(next := Some(n), invDuration := 1.0 / d,
         shaderTransition := if shader.Some? then shader else s.shaderTransition,
         events := s.events + [Enter(n)])
  }

  /** What the current state's request does. */
  function AfterRequest(s: AppState, r: Request): (t: AppState)
    requires s.current.Some? && (r.TransitionTo? ==> r.duration != 0.0)
    ensures t.current.Some? && t.states == s.states && t.instances == s.instances
    ensures s.next.Some? ==> t.next == s.next
    ensures t.progress == s.progress
    ensures r.Quit? ==> !t.running && t.retCode == r.ret
    ensures !r.Quit? ==> t.running == s.running && t.retCode == s.retCode
    ensures s.events <= t.events
  {
    match r
    case Idle => s
    case Quit(ret) => s.(running := false, retCode := ret)
    case GoTo(n) => AfterSwitch(s, n)
    case TransitionTo(n, d, shader) => AfterTransition(s, n, d, shader)
  }

  /** The end of a transition: progress reset, the old state exited and the
      pending one made current. */
  function AfterPromotion(s: AppState): (t: AppState)
    requires s.current.Some? && s.next.Some?
    ensures t.current == s.next && t.next.None? && t.progress == 0.0
    ensures t.events == s.events + [Exit(s.current.value)]
  {
    s.(progress := 0.0, current := s.next, next := None, events := s.events + [Exit(s.current.value)])
  }

  /** One iteration of the main loop. Without a pending state: the current
      state is updated and its request carried out. With one: progress grows
      by `invDuration * dt`, the current state is updated and its request
      carried out, the pending state is updated, and once progress reaches 1
      the pending state is promoted. */
  function AfterFrame(s: AppState, f: Frame): (t: AppState)
    requires s.current.Some? && (f.request.TransitionTo? ==> f.request.duration != 0.0)
    ensures t.current.Some? && t.states == s.states && t.instances == s.instances
  {
    if s.next.None? then AfterRequest(AfterUpdate(s, s.current.value, f.dt), f.request)
    else
      var s1 := s.(progress := s.progress + s.invDuration * f.dt);
      var s2 := AfterUpdate(AfterRequest(AfterUpdate(s1, s.current.value, f.dt), f.request), s.next.value, f.dt);
      if s2.progress >= 1.0 then AfterPromotion(s2) else s2
  }

  /** On a transition frame, `AfterFrame` is the state after progress and
      both updates, promoted once progress reaches 1. */
  lemma AfterFrameInTransition(s: AppState, f: Frame, s2: AppState)
    requires s.current.Some? && s.next.Some? && (f.request.TransitionTo? ==> f.request.duration != 0.0)
    requires var s1 := s.(progress := s.progress + s.invDuration * f.dt);
      s2 == AfterUpdate(AfterRequest(AfterUpdate(s1, s1.current.value, f.dt), f.request), s1.next.value, f.dt)
    ensures s2.current.Some? && s2.next.Some?
    ensures AfterFrame(s, f) == if s2.progress >= 1.0 then AfterPromotion(s2) else s2
  {
    var s1 := s.(progress := s.progress + s.invDuration * f.dt);
    assert s1.current == s.current && s1.next == s.next;
    var u := AfterUpdate(s1, s.current.value, f.dt);
    assert u.next == s.next;
    assert AfterRequest(u, f.request).next == s.next;
    assert s2 == AfterUpdate(AfterRequest(u, f.request), s.next.value, f.dt);
    assert AfterFrame(s, f) == (if s2.progress >= 1.0 then AfterPromotion(s2) else s2);
  }

  class App {
    /** The added states, by name, each a distinct object. */
    var states: map<string, nat>
    /** How many state objects were created so far. */
    var instances: nat
    var current: Option<string>
    var next: Option<string>
    var progress: real
    var invDuration: real
    var running: bool
    var retCode: Int32
    var shaderMain: Option<nat>
    var shaderTransition: Option<nat>
    /** The callbacks invoked on states, in order. */
    var events: seq<Event>

    ghost predicate Valid()
      reads this
    {
      && (current.Some? ==> current.value in states)
      && (next.Some? ==> next.value in states)
      && (forall n :: n in states ==> states[n] < instances)
      && (forall a, b :: a in states && b in states && a != b ==> states[a] != states[b])
    }

    function State(): AppState
      reads this
    {
      AppState(states, instances, current, next, progress, invDuration,
               running, retCode, shaderMain, shaderTransition, events)
    }

    /** Both constructors: everything else they do opens the window, the
        audio device and the render targets. */
    constructor ()
      ensures Valid()
      ensures State() == AppState(map[], 0, None, None, 0.0, 1.0, false, 0, None, None, [])
      ensures Disciplined(events, current, next)
    {
      states := map[];
      instances := 0;
      current := None;
      next := None;
      progress := 0.0;
      invDuration := 1.0;
      running := false;
      retCode := 0;
      shaderMain := None;
      shaderTransition := None;
      events := [];
    }

    /** `AddState<T>(name)`: a new state object under the name, replacing an
        earlier one. */
    method AddState(name: string)
      requires Valid()
      modifies this
      ensures Valid()
      ensures State() == old(State()).(states := old(states)[name := old(instances)], instances := old(instances) + 1)
      ensures states[name] !in old(states).Values
    {
      states := states[name := instances];
      instances := instances + 1;
    }

    method SetMainShader(shader: Option<nat>)
      modifies this
      ensures State() == old(State()).(shaderMain := shader)
    {
      shaderMain := shader;
    }

    /** `Finish(ret)`: the loop stops after this frame and `Run` returns `ret`. */
    method Finish(ret: Int32)
      modifies this
      ensures State() == old(State()).(running := false, retCode := ret)
    {
      running := false;
      retCode := ret;
    }

    /** `OnTransition()`. */
    function OnTransition(): (b: bool)
      reads this
      ensures b <==> next.Some?
    {
      next.Some?
    }

    /** `SetState(name)`: nothing when `name` is the current state; otherwise
        the current state is exited, then `name` becomes current and is
        entered. A pending transition is left as it is. */
    method SetState(name: string)
      requires Valid() && current.Some? && name in states
      modifies this
      ensures Valid()
      ensures name == old(current).value ==> State() == old(State())
      ensures name != old(current).value ==> State() == old(State()).(
        current := Some(name),
        events := old(events) + [Exit(old(current).value), Enter(name)])
      ensures old(Disciplined(events, current, next)) ==> Disciplined(events, current, next)
    {
      if name != current.value {
        SwitchKeepsBalance(events, current.value, name, next);
        events := events + [Exit(current.value), Enter(name)];
        current := Some(name);
      }
    }

    /** `Transition(name, duration, shader)`: ignored while a next state is
        pending; otherwise the shader is adopted when it is a different one,
        the rate becomes `1/duration`, and `name` is recorded as next and
        entered at once. The current state is untouched. */
    method Transition(name: string, duration: real, shader: Option<nat>)
      requires Valid() && name in states && duration != 0.0
      modifies this
      ensures Valid()
      ensures old(next).Some? ==> State() == old(State())
      ensures old(next).None? ==> State() == old(State()).(
        next := Some(name),
        invDuration := 1.0 / duration,
        shaderTransition := if shader.Some? then shader else old(shaderTransition),
        events := old(events) + [Enter(name)])
      ensures old(Disciplined(events, current, next)) ==> Disciplined(events, current, next)
    {
      if next.Some? {
        return;
      }
      if shader.Some? && shader != shaderTransition {
        shaderTransition := shader;
      }
      invDuration := 1.0 / duration;
      EnterKeepsBalance(events, current, name);
      next := Some(name);
      events := events + [Enter(name)];
    }

    /** `GetRenderer(state)`: the main target for the current state's
        object, the transition target for any other. */
    function GetRenderer(instance: nat): (t: Target)
      requires Valid() && current.Some?
      reads this
      ensures t == MainTarget <==> instance == states[current.value]
      ensures next.Some? && next.value != current.value && instance == states[next.value]
        ==> t == TransitionTarget
    {
      if instance == states[current.value] then MainTarget else TransitionTarget
    }

    /** What the current state's `Update` asked for, carried out. */
    method Perform(r: Request)
      requires Valid() && current.Some? && Feasible(r, states.Keys)
      modifies this
      ensures Valid() && current.Some?
      ensures states == old(states) && instances == old(instances)
      ensures r.Quit? ==> State() == old(State()).(running := false, retCode := r.ret)
      ensures !r.Quit? ==> running == old(running) && retCode == old(retCode)
      ensures old(next).Some? ==> next == old(next)
      ensures progress == old(progress)
      ensures r.Idle? ==> State() == old(State())
      ensures |events| >= |old(events)| && events[..|old(events)|] == old(events)
      ensures State() == AfterRequest(old(State()), r)
      ensures old(Disciplined(events, current, next)) ==> Disciplined(events, current, next)
    {
      match r
      case Idle =>
      case Quit(ret) => Finish(ret);
      case GoTo(n) => SetState(n);
      case TransitionTo(n, d, s) => Transition(n, d, s);
    }

    /** `UpdateAndDraw`: a frame with no transition pending. */
    method UpdateAndDraw(f: Frame)
      requires Valid() && current.Some? && next.None? && Feasible(f.request, states.Keys)
      modifies this
      ensures Valid() && current.Some?
      ensures states == old(states) && instances == old(instances)
      ensures |events| > |old(events)| && events[..|old(events)|] == old(events)
      ensures events[|old(events)|] == Update(old(current).value, f.dt)
      ensures f.request.Quit? ==> !running && retCode == f.request.ret
      ensures !f.request.Quit? ==> running == old(running) && retCode == old(retCode)
      ensures State() == AfterFrame(old(State()), f)
      ensures old(Disciplined(events, current, next)) ==> Disciplined(events, current, next)
    {
      RecordUpdate(current.value, f.dt);
      Perform(f.request);
    }

    /** `UpdateAndDrawTransition`: progress grows by `dt/duration`; both
        states are updated; once progress reaches 1 it is reset, the old
        state is exited and the next one becomes current. */
    method UpdateAndDrawTransition(f: Frame)
      requires Valid() && current.Some? && next.Some? && Feasible(f.request, states.Keys)
      modifies this
      ensures Valid() && current.Some?
      ensures states == old(states) && instances == old(instances)
      ensures var p := old(progress) + old(invDuration) * f.dt;
        if p >= 1.0 then progress == 0.0 && next.None? && current == old(next)
        else progress == p && next == old(next)
      ensures |events| > |old(events)| && events[..|old(events)|] == old(events)
      ensures f.request.Quit? ==> !running && retCode == f.request.ret
      ensures !f.request.Quit? ==> running == old(running) && retCode == old(retCode)
      ensures State() == AfterFrame(old(State()), f)
      ensures old(Disciplined(events, current, next)) ==> Disciplined(events, current, next)
    {
      ghost var s0 := State();
      AdvanceTransition(f);
      ghost var s2 := State();
      AfterFrameInTransition(s0, f, s2);
      if progress >= 1.0 {
        EndTransition();
      }
    }

    /** The part of a transition frame before the promotion check: progress
        grows by `dt/duration`, then both states are updated. */
    method AdvanceTransition(f: Frame)
      requires Valid() && current.Some? && next.Some? && Feasible(f.request, states.Keys)
      modifies this
      ensures Valid() && current.Some? && next == old(next)
      ensures states == old(states) && instances == old(instances)
      ensures progress == old(progress) + old(invDuration) * f.dt
      ensures |events| > |old(events)| && events[..|old(events)|] == old(events)
      ensures f.request.Quit? ==> !running && retCode == f.request.ret
      ensures !f.request.Quit? ==> running == old(running) && retCode == old(retCode)
      ensures var s1 := old(State()).(progress := old(progress) + old(invDuration) * f.dt);
        State() == AfterUpdate(AfterRequest(AfterUpdate(s1, s1.current.value, f.dt), f.request), s1.next.value, f.dt)
      ensures old(Disciplined(events, current, next)) ==> Disciplined(events, current, next)
    {
      progress := progress + invDuration * f.dt;
      UpdateBoth(f);
    }

    /** The middle of a transition frame: the current state is updated and
        its request performed, then the pending state is updated. */
    method UpdateBoth(f: Frame)
      requires Valid() && current.Some? && next.Some? && Feasible(f.request, states.Keys)
      modifies this
      ensures Valid() && current.Some? && next == old(next)
      ensures states == old(states) && instances == old(instances)
      ensures progress == old(progress)
      ensures |events| > |old(events)| && events[..|old(events)|] == old(events)
      ensures events[|old(events)|] == Update(old(current).value, f.dt)
      ensures f.request.Quit? ==> !running && retCode == f.request.ret
      ensures !f.request.Quit? ==> running == old(running) && retCode == old(retCode)
      ensures events[|events| - 1] == Update(old(next).value, f.dt)
      ensures State() == AfterUpdate(AfterRequest(AfterUpdate(old(State()), old(current).value, f.dt), f.request),
                                     old(next).value, f.dt)
      ensures old(Disciplined(events, current, next)) ==> Disciplined(events, current, next)
    {
      RecordUpdate(current.value, f.dt);
      Perform(f.request);
      RecordUpdate(next.value, f.dt);
    }

    /** A state's `Update(dt)` callback, invoked on the current or the
        pending state. */
    method RecordUpdate(n: string, dt: real)
      requires current == Some(n) || next == Some(n)
      modifies this
      ensures State() == AfterUpdate(old(State()), n, dt)
      ensures old(Disciplined(events, current, next)) ==> Disciplined(events, current, next)
    {
      UpdateKeepsBalance(events, current, next, n, dt);
      events := events + [Update(n, dt)];
    }

    /** The end of a transition: progress is reset, the old state is exited
        and the next one becomes current. */
    method EndTransition()
      requires Valid() && current.Some? && next.Some?
      modifies this
      ensures Valid() && current.Some?
      ensures progress == 0.0 && current == old(next) && next.None?
      ensures events == old(events) + [Exit(old(current).value)]
      ensures states == old(states) && instances == old(instances)
      ensures running == old(running) && retCode == old(retCode)
      ensures State() == AfterPromotion(old(State()))
      ensures old(Disciplined(events, current, next)) ==> Disciplined(events, current, next)
    {
      progress := 0.0;
      ExitKeepsBalance(events, current.value, next);
      events := events + [Exit(current.value)];
      current := next;
      next := None;
    }

    /** One iteration of `Run`'s loop: a plain frame, or a transition frame
        while a next state is pending. */
    method Tick(f: Frame)
      requires Valid() && current.Some? && Feasible(f.request, states.Keys)
      modifies this
      ensures Valid() && current.Some?
      ensures states == old(states) && instances == old(instances)
      ensures old(events) < events
      ensures f.request.Quit? ==> !running && retCode == f.request.ret
      ensures !f.request.Quit? ==> running == old(running) && retCode == old(retCode)
      ensures State() == AfterFrame(old(State()), f)
      ensures old(Disciplined(events, current, next)) ==> Disciplined(events, current, next)
    {
      if next.None? {
        UpdateAndDraw(f);
      } else {
        UpdateAndDrawTransition(f);
      }
    }

    /** `Run(first)`: enters `first`, runs frames while running and the
        window stays open (it closes after the given frames), then exits the
        current state and any pending next one and returns the code set by
        `Finish`. When no state but a pending next one was entered before,
        every state entered is exited exactly once by the end, and no
        callback goes to a state that is not entered. */
    method Run(first: string, frames: seq<Frame>) returns (ret: Int32, ghost used: nat, ghost body: seq<Event>)
      requires Valid() && first in states
      requires forall i :: 0 <= i < |frames| ==> Feasible(frames[i].request, states.Keys)
      modifies this
      ensures Valid() && current.Some?
      ensures ret == retCode
      ensures used <= |frames|
      ensures running ==> used == |frames| && ret == old(retCode)
      ensures !running ==> 0 < used && frames[used - 1].request == Quit(ret)
      ensures events == old(events) + [Enter(first)] + body + Closing(current.value, next)
      ensures old(Disciplined(events, None, next)) ==> Disciplined(events, None, None)
    {
      ghost var ok := Disciplined(events, None, next);
      ghost var start := events + [Enter(first)];
      Open(first);
      var i := 0;
      while running && i < |frames|
        invariant Valid() && current.Some? && 0 <= i <= |frames|
        invariant states == old(states)
        invariant start <= events
        invariant !running ==> 0 < i && frames[i - 1].request == Quit(retCode)
        invariant running ==> retCode == old(retCode)
        invariant ok ==> Disciplined(events, current, next)
      {
        Tick(frames[i]);
        i := i + 1;
      }
      used := i;
      body := events[|start|..];
      assert events == start + body;
      Close();
      ret := retCode;
    }

    /** The start of `Run`: `first` becomes current and is entered, and the
        loop is armed. */
    method Open(first: string)
      requires Valid() && first in states
      modifies this
      ensures Valid() && current == Some(first) && running
      ensures states == old(states) && retCode == old(retCode)
      ensures events == old(events) + [Enter(first)]
      ensures old(Disciplined(events, None, next)) ==> Disciplined(events, current, next)
    {
      EnterKeepsBalance(events, next, first);
      current := Some(first);
      events := events + [Enter(first)];
      running := true;
    }

    /** The end of `Run`: the current state is exited, then the pending one. */
    method Close()
      requires current.Some?
      modifies this
      ensures State() == old(State()).(events := old(events) + Closing(old(current).value, old(next)))
      ensures old(Disciplined(events, current, next)) ==> Disciplined(events, None, None)
    {
      CloseKeepsBalance(events, current.value, next);
      events := events + Closing(current.value, next);
    }
  }

  /** raylib's `EPSILON`, the loading screen's initial opacity. */
  const Epsilon: real := 0.000001

  /** One frame of the loading screen. The worker's atomic flag is read
      first for the `PostTask` latch, then for the fade (two or three
      times: the fade's `else if` reads it again, and the last read decides
      the fade); the worker may finish between the latch and the fade. */
  datatype LoadFrame = LoadFrame(latchLoading: bool, fadeLoading: bool, dt: real)

  /** The worker clears its flag once and never sets it again: along the
      reads in program order (latch, fade, next latch, ...), once a read
      sees it cleared every later read does. */
  ghost predicate Settles(frames: seq<LoadFrame>)
  {
    && (forall i :: 0 <= i < |frames| && !frames[i].latchLoading ==> !frames[i].fadeLoading)
    && (forall i, j :: 0 <= i < j < |frames| && !frames[i].fadeLoading ==> !frames[j].latchLoading)
  }

  /** Every frame's time is non-negative. */
  predicate Forward(frames: seq<LoadFrame>)
  {
    forall i :: 0 <= i < |frames| ==> frames[i].dt >= 0.0
  }

  /** The first frame whose latch read sees the loading work finished. */
  function FirstDone(frames: seq<LoadFrame>): (r: Option<nat>)
    ensures r.Some? ==> r.value < |frames| && !frames[r.value].latchLoading
    ensures r.Some? ==> forall k :: 0 <= k < r.value ==> frames[k].latchLoading
    ensures r.None? ==> forall k :: 0 <= k < |frames| ==> frames[k].latchLoading
  {
    if frames == [] then None
    else
      var r := FirstDone(frames[..|frames| - 1]);
      if r.Some? then r
      else if !frames[|frames| - 1].latchLoading then Some(|frames| - 1)
      else None
  }

  /** One frame's opacity change: up by `4 dt` (capped at 1) while loading
      and not yet opaque, down by `4 dt` (floored at 0) once finished. */
  function Fade(alpha: real, loading: bool, dt: real): (a: real)
    requires 0.0 <= alpha <= 1.0 && dt >= 0.0
    ensures 0.0 <= a <= 1.0
    ensures loading ==> a >= alpha
    ensures !loading ==> a <= alpha
    ensures !loading && alpha <= 4.0 * dt ==> a == 0.0
  {
    if loading && alpha < 1.0 then (if 1.0 < alpha + 4.0 * dt then 1.0 else alpha + 4.0 * dt)
    else if !loading then (if alpha - 4.0 * dt < 0.0 then 0.0 else alpha - 4.0 * dt)
    else alpha
  }

  /** The opacity after the given frames, starting from `Epsilon`, each
      frame faded by its fade read. While every fade read sees the work
      running the screen never becomes transparent. */
  function AlphaAfter(frames: seq<LoadFrame>): (a: real)
    requires Forward(frames)
    ensures 0.0 <= a <= 1.0
    ensures (forall k :: 0 <= k < |frames| ==> frames[k].fadeLoading) ==> a >= Epsilon
  {
    if frames == [] then Epsilon
    else
      var f := frames[|frames| - 1];
      Fade(AlphaAfter(frames[..|frames| - 1]), f.fadeLoading, f.dt)
  }

  /** The frames as a loop sees them that reads the flag once per frame
      and uses that value for both the latch and the fade. */
  function Latched(frames: seq<LoadFrame>): (r: seq<LoadFrame>)
    ensures |r| == |frames|
    ensures forall k :: 0 <= k < |r| ==>
      r[k].latchLoading == r[k].fadeLoading == frames[k].latchLoading && r[k].dt == frames[k].dt
  {
    seq(|frames|, k requires 0 <= k < |frames| => frames[k].(fadeLoading := frames[k].latchLoading))
  }

  /** `Loading<T>()` as written: the screen fades in while the loading work
      runs and out once it has finished, until fully transparent (or the
      given frames run out). `PostTask` runs at most once, on the first
      frame whose latch read sees the work finished. Because the fade reads
      the flag again, the screen can become transparent on a frame whose
      latch read still saw the work running, and `PostTask` never runs:
      that, and only that, is how the loop ends without it. */
  method Loading(frames: seq<LoadFrame>) returns (alpha: real, postTaskAt: Option<nat>, postTaskRuns: nat, used: nat)
    requires Settles(frames) && Forward(frames)
    ensures used <= |frames|
    ensures alpha > 0.0 ==> used == |frames|
    ensures alpha == AlphaAfter(frames[..used])
    ensures postTaskAt == FirstDone(frames[..used])
    ensures postTaskRuns == if postTaskAt.Some? then 1 else 0
    ensures alpha == 0.0 && postTaskAt.None? ==>
      used > 0 && frames[used - 1].latchLoading && !frames[used - 1].fadeLoading
  {
    alpha := Epsilon;
    var doPostTask := true;
    postTaskAt := None;
    postTaskRuns := 0;
    used := 0;
    while alpha > 0.0 && used < |frames|
      invariant 0 <= used <= |frames|
      decreases |frames| - used
      invariant alpha == AlphaAfter(frames[..used])
      invariant postTaskAt == FirstDone(frames[..used])
      invariant doPostTask <==> postTaskAt.None?
      invariant postTaskRuns == if postTaskAt.Some? then 1 else 0
      invariant postTaskAt.None? && (used == 0 || frames[used - 1].fadeLoading) ==> alpha >= Epsilon
    {
      var f := frames[used];
      assert frames[..used + 1][..used] == frames[..used];
      if !f.latchLoading && doPostTask {
        postTaskRuns := postTaskRuns + 1;
        postTaskAt := Some(used);
        doPostTask := false;
      }
      alpha := Fade(alpha, f.fadeLoading, f.dt);
      used := used + 1;
    }
  }

  /** The race in `Loading` on one frame of 16 ms: the worker finishes
      between the latch read and the fade read of the first frame, the
      screen, at `Epsilon`, becomes transparent, and `PostTask` never runs. */
  method LoadingRace() returns (alpha: real, postTaskRuns: nat)
    ensures alpha == 0.0 && postTaskRuns == 0
  {
    var frames := [LoadFrame(true, false, 0.016)];
    assert AlphaAfter(frames[..0]) == Epsilon;
    assert FirstDone(frames[..1]).None?;
    var postTaskAt, used;
    alpha, postTaskAt, postTaskRuns, used := Loading(frames);
    assert frames[..1] == frames;
  }

  /** `Loading<T>()` with the flag read once per frame into a local and
      that value used for both the latch and the fade: the screen never
      becomes transparent before `PostTask` ran, and it runs exactly once,
      on the first frame that sees the loading work finished. */
  method LoadingSingleRead(frames: seq<LoadFrame>) returns (alpha: real, postTaskAt: Option<nat>, postTaskRuns: nat, used: nat)
    requires Forward(frames)
    ensures used <= |frames|
    ensures alpha > 0.0 ==> used == |frames|
    ensures alpha == AlphaAfter(Latched(frames[..used]))
    ensures postTaskAt == FirstDone(frames[..used])
    ensures postTaskRuns == if postTaskAt.Some? then 1 else 0
    ensures alpha == 0.0 ==> postTaskAt.Some?
  {
    alpha := Epsilon;
    var doPostTask := true;
    postTaskAt := None;
    postTaskRuns := 0;
    used := 0;
    while alpha > 0.0 && used < |frames|
      invariant 0 <= used <= |frames|
      decreases |frames| - used
      invariant alpha == AlphaAfter(Latched(frames[..used]))
      invariant postTaskAt == FirstDone(frames[..used])
      invariant doPostTask <==> postTaskAt.None?
      invariant postTaskRuns == if postTaskAt.Some? then 1 else 0
      invariant postTaskAt.None? ==> alpha >= Epsilon
    {
      var f := frames[used];
      var loading := f.latchLoading;
      assert frames[..used + 1][..used] == frames[..used];
      assert Latched(frames[..used + 1])[..used] == Latched(frames[..used]);
      if !loading && doPostTask {
        postTaskRuns := postTaskRuns + 1;
        postTaskAt := Some(used);
        doPostTask := false;
      }
      alpha := Fade(alpha, loading, f.dt);
      used := used + 1;
    }
  }
}
