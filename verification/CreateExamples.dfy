/**
 A run that meets every assumption of CreateTiming: a flight makes a volume, reads it while it is still being
 created, sleeps, and finds it finished.
 */
module CreateExamples {
  import opened Status
  import opened Capacity
  import opened Timers
  import opened CreateProtocol
  import opened CreateRuns
  import opened CreateTiming

  const DELAY: nat := 1000

  predicate Goes(c: Config, start: State, steps: seq<Step>, s: State, f: Flight) {
    Exec(c, start, steps) == Some(Alone(s, f)) && Served(c, start, steps, ASK.name, DELAY, 0)
  }

  // Where the flight's own step leads.
  function Next(c: Config, s: State, f: Flight, step: Step): (State, Flight)
    requires Moves(step) && Enabled(c, Alone(s, f), step)
  {
    (s.(cloud := CloudAfter(c, Alone(s, f), step), cache := CacheAfter(c, Alone(s, f), step),
        held := HeldAfter(c, Alone(s, f), step)),
     Flight(f.leader, NextPhase(c, Alone(s, f), step), TimerAfter(f.timer, s.clock, step)))
  }

  lemma Took(c: Config, start: State, steps: seq<Step>, s: State, f: Flight, step: Step, t: State, g: Flight)
    returns (more: seq<Step>)
    requires Goes(c, start, steps, s, f) && Enabled(c, Alone(s, f), step) && Apply(c, Alone(s, f), step) == Alone(t, g)
    requires Smooth(step, ASK.name) && Serves(Alone(t, g), ASK.name, DELAY, 0)
    ensures Goes(c, start, more, t, g)
  {
    more := steps + [step];
    assert more[..|more| - 1] == steps;
  }

  lemma Moved(c: Config, start: State, steps: seq<Step>, s: State, f: Flight, step: Step)
    returns (more: seq<Step>, t: State, g: Flight)
    requires Goes(c, start, steps, s, f) && f.leader == ASK && Moves(step) && step.name == ASK.name
    requires Enabled(c, Alone(s, f), step) && Smooth(step, ASK.name)
    requires Serves(Alone(Next(c, s, f, step).0, Next(c, s, f, step).1), ASK.name, DELAY, 0)
    ensures Goes(c, start, more, t, g) && (t, g) == Next(c, s, f, step)
  {
    t, g := Next(c, s, f, step).0, Next(c, s, f, step).1;
    assert Alone(s, f).flights[step.name := g] == map[step.name := g];
    more := Took(c, start, steps, s, f, step, t, g);
  }

  function Fresh(c: Config): Flight {
    Flight(ASK, Called, Timers.Begin(0, None))
  }

  function Made100(c: Config, creating: bool): Volume {
    Volume(ASK.name, c.ClientToken(ASK.name), 100, creating, true, true)
  }

  // What the cloud holds once the volume is made.
  function With(c: Config, creating: bool, clock: int): State {
    State(map["a" := Made100(c, creating)], {}, {}, map[], clock)
  }

  lemma Opens(c: Config) returns (steps: seq<Step>, s: State, f: Flight)
    ensures Goes(c, Alone(EMPTY, Fresh(c)), steps, s, f)
    ensures s == EMPTY.(held := {c.text(ASK)}) && f == Fresh(c).(phase := Listing(100, {}))
  {
    s, f, steps := EMPTY, Fresh(c), [];
    var start := Alone(s, f);
    steps, s, f := Moved(c, start, steps, s, f, TryLock(ASK.name));
    steps, s, f := Moved(c, start, steps, s, f, CheckArgs(ASK.name));
    steps, s, f := Moved(c, start, steps, s, f, StartList(ASK.name));
  }

  lemma Makes(c: Config) returns (steps: seq<Step>, s: State, f: Flight)
    ensures Goes(c, Alone(EMPTY, Fresh(c)), steps, s, f)
    ensures s == With(c, true, 0).(held := {c.text(ASK)}) && f == Fresh(c).(phase := Created("a", 100))
  {
    var start := Alone(EMPTY, Fresh(c));
    steps, s, f := Opens(c);
    steps, s, f := Moved(c, start, steps, s, f, List(ASK.name, {}, false));
    steps, s, f := Moved(c, start, steps, s, f, LoadCache(ASK.name));
    assert WithToken(s.cloud, c.ClientToken(ASK.name)) == {};
    steps, s, f := Moved(c, start, steps, s, f, Create(ASK.name, Made("a", true, true, true, true)));
  }

  lemma ReadsEarly(c: Config) returns (steps: seq<Step>, s: State, f: Flight)
    ensures Goes(c, Alone(EMPTY, Fresh(c)), steps, s, f)
    ensures s == With(c, true, 0).(held := {c.text(ASK)}) && f == Fresh(c).(phase := Closing(Error(Aborted), false))
  {
    var start := Alone(EMPTY, Fresh(c));
    steps, s, f := Makes(c);
    steps, s, f := Moved(c, start, steps, s, f, Store(ASK.name));
    steps, s, f := Moved(c, start, steps, s, f, Fetch(ASK.name, false));
    steps, s, f := Moved(c, start, steps, s, f, Drop(ASK.name));
    assert s.cache == {};
  }

  lemma GivesUp(c: Config) returns (steps: seq<Step>, s: State, f: Flight)
    ensures Goes(c, Alone(EMPTY, Fresh(c)), steps, s, f)
    ensures s == With(c, true, 0)
    ensures f == Fresh(c).(phase := Returned(Error(Aborted)), timer := Timers.Over(Fresh(c).timer, 0))
  {
    var start := Alone(EMPTY, Fresh(c));
    steps, s, f := ReadsEarly(c);
    steps, s, f := Moved(c, start, steps, s, f, Unlock(ASK.name));
    assert s.held == {};
    steps, s, f := Moved(c, start, steps, s, f, Return(ASK.name));
  }

  lemma Sleeps(c: Config) returns (steps: seq<Step>, s: State, f: Flight)
    ensures Goes(c, Alone(EMPTY, Fresh(c)), steps, s, f)
    ensures s == With(c, false, 2000) && f == Fresh(c).(timer := Timers.Again(Fresh(c).timer, 2000))
  {
    var start := Alone(EMPTY, Fresh(c));
    steps, s, f := GivesUp(c);
    assert s.cloud["a" := s.cloud["a"].(creating := false)] == With(c, false, 0).cloud;
    steps := Took(c, start, steps, s, f, Finish("a"), With(c, false, 0), f);
    steps := Took(c, start, steps, With(c, false, 0), f, Tick(2000), With(c, false, 2000), f);
    steps, s, f := Moved(c, start, steps, With(c, false, 2000), f, Retry(ASK.name));
  }

  lemma OpensAgain(c: Config) returns (steps: seq<Step>, s: State, f: Flight)
    ensures Goes(c, Alone(EMPTY, Fresh(c)), steps, s, f)
    ensures s == With(c, false, 2000).(held := {c.text(ASK)})
    ensures f == Flight(ASK, Listing(100, {"a"}), Timers.Again(Fresh(c).timer, 2000))
  {
    var start := Alone(EMPTY, Fresh(c));
    steps, s, f := Sleeps(c);
    steps, s, f := Moved(c, start, steps, s, f, TryLock(ASK.name));
    steps, s, f := Moved(c, start, steps, s, f, CheckArgs(ASK.name));
    assert Listed(s.cloud, ASK.name) == {"a"};
    steps, s, f := Moved(c, start, steps, s, f, StartList(ASK.name));
  }

  lemma Finds(c: Config) returns (steps: seq<Step>, s: State, f: Flight)
    ensures Goes(c, Alone(EMPTY, Fresh(c)), steps, s, f)
    ensures f.leader == ASK && f.phase.Closing? && !f.phase.outcome.IsAborted()
    ensures f.timer == Timers.Again(Fresh(c).timer, 2000)
    ensures s == With(c, false, 2000).(held := {c.text(ASK)}) && f.phase.dropsCache
  {
    var start := Alone(EMPTY, Fresh(c));
    steps, s, f := OpensAgain(c);
    assert Listed(s.cloud, ASK.name) == {"a"} && TheOne({"a"}) == "a";
    steps, s, f := Moved(c, start, steps, s, f, List(ASK.name, {"a"}, false));
  }

  lemma Ends(c: Config) returns (steps: seq<Step>, s: State, f: Flight)
    ensures Goes(c, Alone(EMPTY, Fresh(c)), steps, s, f) && f.leader == ASK && CanLeave(f, s.clock)
  {
    var start := Alone(EMPTY, Fresh(c));
    steps, s, f := Finds(c);
    steps, s, f := Moved(c, start, steps, s, f, Drop(ASK.name));
    steps, s, f := Moved(c, start, steps, s, f, Unlock(ASK.name));
    steps, s, f := Moved(c, start, steps, s, f, Return(ASK.name));
  }

  // Such runs exist.
  lemma ServedCreate(c: Config) returns (s: State, steps: seq<Step>)
    requires c.Valid() && c.Reliable()
    ensures Inv(c, s) && TimersInv(s) && Begins(s, ASK, 100, None) && Fits(s.flights[ASK.name].timer, DELAY, 0)
    ensures Served(c, s, steps, ASK.name, DELAY, 0)
    ensures var t := Exec(c, s, steps).value; ASK.name in t.flights && CanLeave(t.flights[ASK.name], t.clock)
  {
    s := Alone(EMPTY, Fresh(c));
    var t, f;
    steps, t, f := Ends(c);
  }
}
