/** The foreground half of the `exec` command: acquire a valid certificate,
    then run the child command in a loop, starting it again whenever the
    watcher asked for a restart while it ran, and report the error of the
    last run.

    The loop is a state machine over a trace of two kinds of events: the
    watcher setting the restart flag (and signalling the child), and the
    child exiting. */
module Supervisor {
  import opened Base
  import opened Retry

  /** The environment entry carrying the token the supervisor authenticates
      with; it never reaches the child. */
  const TokenPrefix: string := "JWT="

  /** What `child.Run()` returned. */
  datatype RunError =
    | Clean                      // nil: the command exited with status 0
    | ExitStatus(code: int)      // the command exited with a non-zero status
    | StartFailed(reason: string) // the command could not be started or waited for

  datatype Event =
    | RestartRequested           // the watcher set the flag and signalled the child
    | ChildExited(err: RunError) // `child.Run()` returned

  /** The child process as it is started: program, arguments, and the
      `Env` field, which stays nil (`None`) until an entry is appended. */
  datatype Command = Command(path: string, args: seq<string>, env: Option<seq<string>>)

  datatype State =
    | Aborted(error: AcqError)                          // no certificate: nothing started
    | Crashed                                           // `args[0]` of an empty command line: a panic
    | Running(restart: bool, spawns: nat, child: Command) // a child runs
    | Finished(err: RunError, spawns: nat)               // the loop ended with this error

  function Spawns(s: State): nat {
    match s
    case Aborted(_) => 0
    case Crashed => 0
    case Running(_, n, _) => n
    case Finished(_, n) => n
  }

  // ---------------------------------------------------------------------
  // The child's environment

  /** The entries the filter loop appends: the supervisor's own entries, in
      order, without any that start with `JWT=`. */
  function Sanitise(environ: seq<string>): (env: seq<string>)
    ensures forall e :: e in env ==> e in environ && !HasPrefix(e, TokenPrefix)
    ensures forall e :: e in environ && !HasPrefix(e, TokenPrefix) ==> e in env
    ensures |env| <= |environ|
  {
    if |environ| == 0 then []
    else (if HasPrefix(environ[0], TokenPrefix) then [] else [environ[0]]) + Sanitise(environ[1..])
  }

  /** Filtering commutes with concatenation, so the kept entries stay in
      their original order. */
  lemma {:induction false} SanitiseAppend(a: seq<string>, b: seq<string>)
    ensures Sanitise(a + b) == Sanitise(a) + Sanitise(b)
    decreases |a|
  {
    if |a| == 0 {
      assert a + b == b;
    } else {
      assert (a + b)[0] == a[0] && (a + b)[1..] == a[1..] + b;
      SanitiseAppend(a[1..], b);
    }
  }

  /** An environment without a token entry is passed on unchanged, and so
      sanitising twice is sanitising once. */
  lemma {:induction false} SanitiseKeepsClean(environ: seq<string>)
    requires forall i :: 0 <= i < |environ| ==> !HasPrefix(environ[i], TokenPrefix)
    ensures Sanitise(environ) == environ
    decreases |environ|
  {
    if |environ| > 0 {
      SanitiseKeepsClean(environ[1..]);
    }
  }

  /** The `Env` field the loop leaves behind: nil when nothing was appended,
      which happens exactly when every entry is a token entry. */
  function EnvField(environ: seq<string>): (env: Option<seq<string>>)
    ensures env.None? <==> forall i :: 0 <= i < |environ| ==> HasPrefix(environ[i], TokenPrefix)
    ensures env.Some? ==> env.value == Sanitise(environ) && |env.value| > 0
  {
    var kept := Sanitise(environ);
    if kept == [] then None
    else
      assert kept[0] in kept;
      Some(kept)
  }

  /** Go's `append` on a possibly nil list: the result is never nil. */
  function Append(env: Option<seq<string>>, e: string): Option<seq<string>> {
    Some((match env case None => [] case Some(l) => l) + [e])
  }

  /** One step of the loop: a token entry leaves the field alone, any other
      is appended to it. */
  lemma EnvFieldStep(prefix: seq<string>, e: string)
    ensures EnvField(prefix + [e]) == (if HasPrefix(e, TokenPrefix) then EnvField(prefix) else Append(EnvField(prefix), e))
  {
    SanitiseAppend(prefix, [e]);
    assert [e][1..] == [];
    var kept := Sanitise(prefix);
    if HasPrefix(e, TokenPrefix) {
      assert Sanitise(prefix + [e]) == kept + [] == kept;
    } else {
      assert Sanitise(prefix + [e]) == kept + [e];
      assert (kept + [e])[|kept|] in kept + [e];
    }
  }

  /** The environment loop as written: append every entry that does not
      start with `JWT=` to a field that starts out nil. */
  method ChildEnv(environ: seq<string>) returns (env: Option<seq<string>>)
    ensures env == EnvField(environ)
    ensures env.Some? ==> forall i :: 0 <= i < |env.value| ==> !HasPrefix(env.value[i], TokenPrefix)
  {
    env := None;
    var i := 0;
    while i < |environ|
      invariant i <= |environ|
      invariant env == EnvField(environ[..i])
    {
      var e := environ[i];
      assert environ[..i + 1] == environ[..i] + [e];
      EnvFieldStep(environ[..i], e);
      if !HasPrefix(e, TokenPrefix) {
        env := Append(env, e);
      }
      i := i + 1;
    }
    assert environ[..i] == environ;
  }

  // ---------------------------------------------------------------------
  // The environment the started process receives (`os/exec`)

  /** The name an entry of the form `name=value` sets: the text before its
      first `=`. */
  function KeyOf(e: string): string
    requires '=' in e
  {
    if e[0] == '=' then "" else [e[0]] + KeyOf(e[1..])
  }

  /** Whether an entry outlives duplicate removal, given the entries after
      it: an entry without `=` is kept unless it is empty, and a
      `name=value` entry is kept when no later entry sets the same name. */
  predicate Survives(e: string, later: seq<string>) {
    if '=' !in e then e != ""
    else forall j :: 0 <= j < |later| && '=' in later[j] ==> KeyOf(later[j]) != KeyOf(e)
  }

  /** Duplicate removal: for every name, the last entry that sets it, in
      their original order. */
  function Dedup(env: seq<string>): (r: seq<string>)
    ensures forall e :: e in r ==> e in env
    ensures |r| <= |env|
    decreases |env|
  {
    if |env| == 0 then []
    else (if Survives(env[0], env[1..]) then [env[0]] else []) + Dedup(env[1..])
  }

  /** No two `name=value` entries of `env` set the same name. */
  predicate UniqueKeys(env: seq<string>) {
    forall i, j :: 0 <= i < j < |env| && '=' in env[i] && '=' in env[j] ==> KeyOf(env[i]) != KeyOf(env[j])
  }

  /** Putting an entry in front of a list with unique names keeps them
      unique when the entry's name, if any, is not among them. */
  lemma ConsUniqueKeys(e: string, rest: seq<string>)
    requires UniqueKeys(rest)
    requires '=' in e ==> forall f :: f in rest && '=' in f ==> KeyOf(f) != KeyOf(e)
    ensures UniqueKeys([e] + rest)
  {
    var r := [e] + rest;
    forall i, j | 0 <= i < j < |r| && '=' in r[i] && '=' in r[j]
      ensures KeyOf(r[i]) != KeyOf(r[j])
    {
      assert r[j] == rest[j - 1];
      if i == 0 {
        assert rest[j - 1] in rest;
      } else {
        assert r[i] == rest[i - 1];
      }
    }
  }

  /** No name is set twice in the deduplicated environment. */
  lemma {:induction false} DedupKeysUnique(env: seq<string>)
    ensures UniqueKeys(Dedup(env))
    decreases |env|
  {
    if |env| > 0 {
      DedupKeysUnique(env[1..]);
      var rest := Dedup(env[1..]);
      if Survives(env[0], env[1..]) {
        if '=' in env[0] {
          forall f | f in rest && '=' in f
            ensures KeyOf(f) != KeyOf(env[0])
          {
            assert f in env[1..];
            var k :| 0 <= k < |env[1..]| && env[1..][k] == f;
          }
        }
        ConsUniqueKeys(env[0], rest);
      } else {
        assert Dedup(env) == rest;
      }
    }
  }

  /** Every name the input sets is still set after duplicate removal. */
  lemma {:induction false} DedupKeepsEveryName(env: seq<string>, i: nat)
    requires i < |env| && '=' in env[i]
    ensures exists f :: f in Dedup(env) && '=' in f && KeyOf(f) == KeyOf(env[i])
    decreases |env|
  {
    var r := Dedup(env);
    var rest := Dedup(env[1..]);
    assert r == (if Survives(env[0], env[1..]) then [env[0]] else []) + rest;
    if i > 0 {
      DedupKeepsEveryName(env[1..], i - 1);
      var f :| f in rest && '=' in f && KeyOf(f) == KeyOf(env[1..][i - 1]);
      assert f in r;
    } else if Survives(env[0], env[1..]) {
      assert env[0] in r;
    } else {
      var j :| 0 <= j < |env[1..]| && '=' in env[1..][j] && KeyOf(env[1..][j]) == KeyOf(env[0]);
      DedupKeepsEveryName(env[1..], j);
      var f :| f in rest && '=' in f && KeyOf(f) == KeyOf(env[1..][j]);
      assert f in r;
    }
  }

  /** What the started process sees: the `Env` field when it is set and the
      supervisor's own environment when it is nil, after duplicate removal. */
  function ProcessEnv(c: Command, environ: seq<string>): seq<string> {
    Dedup(match c.env case None => environ case Some(env) => env)
  }

  // ---------------------------------------------------------------------
  // The restart loop

  /** `exec.Command(args[0], args[1:]...)` with the `Env` field the loop
      builds; the command line must name a program. The token is withheld
      from the child only while some other entry exists. */
  function Spawn(args: seq<string>, environ: seq<string>): (c: Command)
    requires |args| > 0
    ensures [c.path] + c.args == args
    ensures c.env == EnvField(environ)
    ensures (exists i :: 0 <= i < |environ| && !HasPrefix(environ[i], TokenPrefix)) ==>
              forall e :: e in ProcessEnv(c, environ) ==> !HasPrefix(e, TokenPrefix)
  {
    Command(args[0], args[1..], EnvField(environ))
  }

  /** When every entry is a token entry nothing is appended, the field
      stays nil, and the child inherits the supervisor's environment,
      token included. */
  lemma TokenReachesChildWhenAlone(args: seq<string>, environ: seq<string>)
    requires |args| > 0 && |environ| > 0
    requires forall i :: 0 <= i < |environ| ==> HasPrefix(environ[i], TokenPrefix)
    ensures Spawn(args, environ).env.None?
    ensures exists e :: e in ProcessEnv(Spawn(args, environ), environ) && HasPrefix(e, TokenPrefix)
  {
    assert environ[0][3] == '=';
    DedupKeepsEveryName(environ, 0);
  }

  /** The spawn the filter evidently intends: the field starts as an empty,
      non-nil list, so the child never falls back to the supervisor's
      environment and never sees a token entry. */
  function SpawnIsolated(args: seq<string>, environ: seq<string>): (c: Command)
    requires |args| > 0
    ensures [c.path] + c.args == args
    ensures forall e :: e in ProcessEnv(c, environ) ==> !HasPrefix(e, TokenPrefix)
    ensures forall i :: 0 <= i < |environ| && !HasPrefix(environ[i], TokenPrefix) && '=' in environ[i] ==>
              exists f :: f in ProcessEnv(c, environ) && '=' in f && KeyOf(f) == KeyOf(environ[i])
  {
    var c := Command(args[0], args[1..], Some(Sanitise(environ)));
    assert forall i :: 0 <= i < |environ| && !HasPrefix(environ[i], TokenPrefix) && '=' in environ[i] ==>
             exists f :: f in ProcessEnv(c, environ) && '=' in f && KeyOf(f) == KeyOf(environ[i]) by {
      forall i | 0 <= i < |environ| && !HasPrefix(environ[i], TokenPrefix) && '=' in environ[i]
        ensures exists f :: f in ProcessEnv(c, environ) && '=' in f && KeyOf(f) == KeyOf(environ[i])
      {
        var kept := Sanitise(environ);
        assert environ[i] in kept;
        var k :| 0 <= k < |kept| && kept[k] == environ[i];
        DedupKeepsEveryName(kept, k);
      }
    }
    c
  }

  /** The two spawns differ only when every entry is a token entry. */
  lemma SpawnsAgreeWithOtherEntries(args: seq<string>, environ: seq<string>)
    requires |args| > 0
    requires exists i :: 0 <= i < |environ| && !HasPrefix(environ[i], TokenPrefix)
    ensures Spawn(args, environ) == SpawnIsolated(args, environ)
  {
  }

  /** The supervisor after the initial acquisition: it aborts without
      starting anything if that failed, crashes if the command line is
      empty, and otherwise starts the first child with the restart flag
      clear. */
  function Start(initial: Result<Certificate, AcqError>, args: seq<string>, environ: seq<string>): (s: State)
    ensures initial.Err? ==> s == Aborted(initial.error)
    ensures s.Aborted? ==> initial.Err?
    // an empty command line passes the acquisition and then panics on `args[0]`
    ensures s == Crashed <==> initial.Ok? && |args| == 0
    ensures initial.Ok? && |args| > 0 ==>
              s.Running? && !s.restart && s.spawns == 1 && [s.child.path] + s.child.args == args
  {
    match initial
    case Err(e) => Aborted(e)
    case Ok(_) => if |args| == 0 then Crashed else Running(false, 1, Spawn(args, environ))
  }

  /** One event. The flag is cleared as each new child starts; the loop
      ends exactly when a child exits with the flag still clear, and then
      reports that child's error. */
  function Step(s: State, e: Event): (r: State)
    ensures !s.Running? ==> r == s
    ensures s.Running? && e.ChildExited? ==> (r.Finished? <==> !s.restart)
    ensures s.Running? && r.Finished? ==> e.ChildExited? && r.err == e.err && r.spawns == s.spawns
    ensures s.Running? && r.Running? ==> r.child == s.child
    ensures s.Running? && r.Running? && r.spawns != s.spawns ==> r.spawns == s.spawns + 1 && !r.restart
    ensures s.Running? && e.RestartRequested? ==> r.Running? && r.restart && r.spawns == s.spawns
  {
    match s
    case Running(restart, n, child) =>
      (match e
       case RestartRequested => Running(true, n, child)
       case ChildExited(err) => if restart then Running(false, n + 1, child) else Finished(err, n))
    case _ => s
  }

  function Run(s: State, events: seq<Event>): State
    decreases |events|
  {
    if |events| == 0 then s else Run(Step(s, events[0]), events[1..])
  }

  /** Number of child exits in a trace. */
  function Exits(events: seq<Event>): nat {
    if |events| == 0 then 0 else (if events[0].ChildExited? then 1 else 0) + Exits(events[1..])
  }

  lemma {:induction false} ExitsAppend(a: seq<Event>, b: seq<Event>)
    ensures Exits(a + b) == Exits(a) + Exits(b)
    decreases |a|
  {
    if |a| == 0 {
      assert a + b == b;
    } else {
      assert (a + b)[0] == a[0] && (a + b)[1..] == a[1..] + b;
      ExitsAppend(a[1..], b);
    }
  }

  /** A failed initial acquisition starts no child, whatever happens later. */
  lemma {:induction false} AbortedSpawnsNothing(e: AcqError, events: seq<Event>)
    ensures Run(Aborted(e), events) == Aborted(e)
    ensures Spawns(Run(Aborted(e), events)) == 0
    decreases |events|
  {
    if |events| > 0 {
      AbortedSpawnsNothing(e, events[1..]);
    }
  }

  /** The whole command: when acquiring the first certificate fails, the
      error is returned and no child is ever started. */
  lemma InitialFailureSpawnsNothing(fetch: Outcome<string>, parse: nat -> ParseResult, clock: nat -> int,
                                    args: seq<string>, environ: seq<string>, events: seq<Event>)
    requires GetValidCert(0, fetch, parse, clock).result.Err?
    ensures Run(Start(GetValidCert(0, fetch, parse, clock).result, args, environ), events)
            == Aborted(GetValidCert(0, fetch, parse, clock).result.error)
  {
    AbortedSpawnsNothing(GetValidCert(0, fetch, parse, clock).result.error, events);
  }

  /** While the loop runs, every child exit has started a new child. */
  lemma {:induction false} SpawnsCountExits(s: State, events: seq<Event>)
    requires s.Running?
    requires Run(s, events).Running?
    ensures Run(s, events).spawns == s.spawns + Exits(events)
    decreases |events|
  {
    if |events| > 0 {
      if !Step(s, events[0]).Running? {
        FinishedStays(Step(s, events[0]), events[1..]);
      } else {
        SpawnsCountExits(Step(s, events[0]), events[1..]);
      }
    }
  }

  lemma {:induction false} FinishedStays(s: State, events: seq<Event>)
    requires !s.Running?
    ensures Run(s, events) == s
    decreases |events|
  {
    if |events| > 0 {
      FinishedStays(s, events[1..]);
    }
  }

  /** The loop ends with the error of its last run: a run that ended
      because a child exited while the restart flag was clear, after
      `spawns - 1` restarts. */
  lemma {:induction false} ResultIsLastRun(s: State, events: seq<Event>)
    requires s.Running?
    requires Run(s, events).Finished?
    ensures exists i :: 0 <= i < |events| && events[i] == ChildExited(Run(s, events).err)
                        && Run(s, events[..i]).Running?
                        && !Run(s, events[..i]).restart
                        && Run(s, events[..i]).spawns == Run(s, events).spawns
    decreases |events|
  {
    var r := Run(s, events);
    var s' := Step(s, events[0]);
    assert events[..1] == [events[0]];
    if s'.Finished? {
      FinishedStays(s', events[1..]);
      assert Run(s, events[..0]) == s;
    } else {
      ResultIsLastRun(s', events[1..]);
      var i :| 0 <= i < |events[1..]| && events[1..][i] == ChildExited(r.err)
               && Run(s', events[1..][..i]).Running?
               && !Run(s', events[1..][..i]).restart
               && Run(s', events[1..][..i]).spawns == r.spawns;
      assert events[..i + 1][1..] == events[1..][..i];
      assert Run(s, events[..i + 1]) == Run(s', events[1..][..i]);
    }
  }

  /** However many restart requests arrive while one child runs, its exit
      starts exactly one new child, with the flag clear. */
  lemma RestartOncePerExit(restart: bool, n: nat, child: Command, k: nat, err: RunError)
    requires k > 0
    ensures Run(Running(restart, n, child), seq(k, _ => RestartRequested) + [ChildExited(err)])
            == Running(false, n + 1, child)
  {
    var s := Running(restart, n, child);
    RequestsSetFlag(s, k);
    RunAppend(s, seq(k, _ => RestartRequested), [ChildExited(err)]);
  }

  lemma {:induction false} RequestsSetFlag(s: State, k: nat)
    requires s.Running? && k > 0
    ensures Run(s, seq(k, _ => RestartRequested)) == Running(true, s.spawns, s.child)
    decreases k
  {
    var reqs := seq(k, _ => RestartRequested);
    assert reqs[1..] == seq(k - 1, _ => RestartRequested);
    if k > 1 {
      RequestsSetFlag(Step(s, RestartRequested), k - 1);
    }
  }

  lemma {:induction false} RunAppend(s: State, a: seq<Event>, b: seq<Event>)
    ensures Run(s, a + b) == Run(Run(s, a), b)
    decreases |a|
  {
    if |a| == 0 {
      assert a + b == b;
    } else {
      assert (a + b)[0] == a[0] && (a + b)[1..] == a[1..] + b;
      RunAppend(Step(s, a[0]), a[1..], b);
    }
  }
}
