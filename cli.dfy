/** The plug-in's command line (`docker ztd [OPTIONS] SERVICE`): defaults,
    value-taking flags, the positional service name and the checks that end
    the process. */
module Cli {
  import opened Common
  import opened GoStrings

  /** The parsed configuration; durations are in whole seconds. */
  datatype Options = Options(
    healthcheckTimeout: int,
    noHealthcheckTimeout: int,
    waitAfterHealthy: int,
    traefikConf: string,
    proxyType: string,
    composeFiles: seq<string>,
    envFiles: seq<string>,
    service: string,
    detach: bool)

  const Defaults := Options(60, 10, 0, "traefik/dynamic_conf.yml", "traefik", [], [], "", false)

  /** `time.ParseDuration`, in whole seconds, as a partial function. */
  type DurationParser = string -> Option<int>

  datatype ArgError =
    | MissingValue(flag: string)
    | InvalidDuration(flag: string, value: string)
    | UnknownFlag(arg: string)
    | DuplicateService
    | InvalidProxy(proxy: string)

  /** How parsing ends: a configuration, the usage text (exit 0), or a
      fatal error (exit 1). */
  datatype ParseOutcome = Parsed(options: Options) | ShowHelp | Fatal(error: ArgError)

  /** The argument loop's state at its end: still going, or stopped. */
  datatype Walked = Done(options: Options) | Stop(outcome: ParseOutcome)

  predicate IsHelp(arg: string)
  {
    arg == "--help" || arg == "-h"
  }

  predicate TakesValue(arg: string)
  {
    arg in {"--timeout", "-t", "--wait", "-w", "--wait-after-healthy", "-wa",
            "--traefik-conf", "-tc", "--proxy", "-p", "--file", "-f", "--env-file", "-e"}
  }

  /** The flags whose value is a duration in seconds. */
  predicate IsDurationFlag(arg: string)
  {
    arg in {"--timeout", "-t", "--wait", "-w", "--wait-after-healthy", "-wa"}
  }

  predicate ValidProxy(p: string)
  {
    p == "traefik" || p == "nginx-proxy"
  }

  /** The effect of one value-taking flag and its value. Duration values
      get an "s" appended before parsing. */
  function SetOption(flag: string, value: string, o: Options, dur: DurationParser): (r: Result<Options, ArgError>)
    requires TakesValue(flag)
    ensures r.Ok? ==> r.value.service == o.service
    ensures r.Err? ==> r.error == InvalidDuration(flag, value)
    ensures IsDurationFlag(flag) ==> (r.Err? <==> dur(value + "s").None?)
    ensures !IsDurationFlag(flag) ==> r.Ok?
    ensures (flag == "--timeout" || flag == "-t") && r.Ok? ==>
              r.value == o.(healthcheckTimeout := dur(value + "s").value)
    ensures (flag == "--wait" || flag == "-w") && r.Ok? ==>
              r.value == o.(noHealthcheckTimeout := dur(value + "s").value)
    ensures (flag == "--wait-after-healthy" || flag == "-wa") && r.Ok? ==>
              r.value == o.(waitAfterHealthy := dur(value + "s").value)
    ensures (flag == "--traefik-conf" || flag == "-tc") ==> r == Ok(o.(traefikConf := value))
    ensures (flag == "--proxy" || flag == "-p") ==> r == Ok(o.(proxyType := value))
    ensures (flag == "--file" || flag == "-f") ==> r == Ok(o.(composeFiles := o.composeFiles + [value]))
    ensures (flag == "--env-file" || flag == "-e") ==> r == Ok(o.(envFiles := o.envFiles + [value]))
  {
    if flag == "--timeout" || flag == "-t" then
      (match dur(value + "s")
       case None => Err(InvalidDuration(flag, value))
       case Some(d) => Ok(o.(healthcheckTimeout := d)))
    else if flag == "--wait" || flag == "-w" then
      (match dur(value + "s")
       case None => Err(InvalidDuration(flag, value))
       case Some(d) => Ok(o.(noHealthcheckTimeout := d)))
    else if flag == "--wait-after-healthy" || flag == "-wa" then
      (match dur(value + "s")
       case None => Err(InvalidDuration(flag, value))
       case Some(d) => Ok(o.(waitAfterHealthy := d)))
    else if flag == "--traefik-conf" || flag == "-tc" then Ok(o.(traefikConf := value))
    else if flag == "--proxy" || flag == "-p" then Ok(o.(proxyType := value))
    else if flag == "--file" || flag == "-f" then Ok(o.(composeFiles := o.composeFiles + [value]))
    else Ok(o.(envFiles := o.envFiles + [value]))
  }

  /** The argument loop from position `i` with configuration `o`. */
  function Walk(args: seq<string>, i: nat, o: Options, dur: DurationParser): Walked
    decreases |args| - i
  {
    if i >= |args| then Done(o)
    else
      var arg := args[i];
      if IsHelp(arg) then Stop(ShowHelp)
      else if TakesValue(arg) then
        if i + 1 >= |args| then Stop(Fatal(MissingValue(arg)))
        else match SetOption(arg, args[i + 1], o, dur)
          case Err(e) => Stop(Fatal(e))
          case Ok(next) => Walk(args, i + 2, next, dur)
      else if HasPrefix(arg, "-") then Stop(Fatal(UnknownFlag(arg)))
      else if o.service != "" then Stop(Fatal(DuplicateService))
      else Walk(args, i + 1, o.(service := arg), dur)
  }

  /** The proxy check after the loop. */
  function Finish(w: Walked): ParseOutcome
  {
    match w
    case Stop(outcome) => outcome
    case Done(o) => if ValidProxy(o.proxyType) then Parsed(o) else Fatal(InvalidProxy(o.proxyType))
  }

  /** parseArgs over the arguments after `docker ztd`. */
  method ParseArgs(args: seq<string>, dur: DurationParser) returns (r: ParseOutcome)
    ensures r == Finish(Walk(args, 0, Defaults, dur))
    ensures r.Parsed? ==> ValidProxy(r.options.proxyType)
  {
    var config := Defaults;
    var i := 0;
    while i < |args|
      invariant 0 <= i <= |args|
      invariant Walk(args, i, config, dur) == Walk(args, 0, Defaults, dur)
    {
      var arg := args[i];
      if arg == "--help" || arg == "-h" {
        return ShowHelp;
      } else if TakesValue(arg) {
        if i + 1 >= |args| {
          return Fatal(MissingValue(arg));
        }
        var value := args[i + 1];
        if arg == "--timeout" || arg == "-t" || arg == "--wait" || arg == "-w"
           || arg == "--wait-after-healthy" || arg == "-wa" {
          var duration := dur(value + "s");
          if duration.None? {
            return Fatal(InvalidDuration(arg, value));
          }
          if arg == "--timeout" || arg == "-t" {
            config := config.(healthcheckTimeout := duration.value);
          } else if arg == "--wait" || arg == "-w" {
            config := config.(noHealthcheckTimeout := duration.value);
          } else {
            config := config.(waitAfterHealthy := duration.value);
          }
        } else if arg == "--traefik-conf" || arg == "-tc" {
          config := config.(traefikConf := value);
        } else if arg == "--proxy" || arg == "-p" {
          config := config.(proxyType := value);
        } else if arg == "--file" || arg == "-f" {
          config := config.(composeFiles := config.composeFiles + [value]);
        } else {
          config := config.(envFiles := config.envFiles + [value]);
        }
        i := i + 1;
      } else if HasPrefix(arg, "-") {
        return Fatal(UnknownFlag(arg));
      } else {
        if config.service != "" {
          return Fatal(DuplicateService);
        }
        config := config.(service := arg);
      }
      i := i + 1;
    }
    if config.proxyType != "traefik" && config.proxyType != "nginx-proxy" {
      return Fatal(InvalidProxy(config.proxyType));
    }
    return Parsed(config);
  }

  // ---------------------------------------------------------------------
  // Properties of the parser

  /** No arguments: every default. */
  lemma EmptyArgsGiveDefaults(dur: DurationParser)
    ensures Finish(Walk([], 0, Defaults, dur))
            == Parsed(Options(60, 10, 0, "traefik/dynamic_conf.yml", "traefik", [], [], "", false))
  {
  }

  /** The loop over `a + b` from inside `b` is the loop over `b`. */
  lemma {:induction false} WalkShift(a: seq<string>, b: seq<string>, j: nat, o: Options, dur: DurationParser)
    requires j <= |b|
    ensures Walk(a + b, |a| + j, o, dur) == Walk(b, j, o, dur)
    decreases |b| - j
  {
    var ab := a + b;
    if j < |b| {
      assert ab[|a| + j] == b[j];
      if j + 1 < |b| {
        assert ab[|a| + j + 1] == b[j + 1];
      }
      var arg := b[j];
      if TakesValue(arg) && j + 1 < |b| {
        var next := SetOption(arg, b[j + 1], o, dur);
        if next.Ok? {
          if j + 2 <= |b| {
            WalkShift(a, b, j + 2, next.value, dur);
          }
        }
      } else if !IsHelp(arg) && !TakesValue(arg) && !HasPrefix(arg, "-") && o.service == "" {
        WalkShift(a, b, j + 1, o.(service := arg), dur);
      }
    }
  }

  /** A prefix that is fully consumed (it does not end in a value flag
      missing its value) composes with what follows. */
  lemma {:induction false} WalkAppend(pre: seq<string>, post: seq<string>, i: nat, o: Options, dur: DurationParser)
    requires i <= |pre|
    requires !(Walk(pre, i, o, dur).Stop? && Walk(pre, i, o, dur).outcome.Fatal?
               && Walk(pre, i, o, dur).outcome.error.MissingValue?)
    ensures Walk(pre + post, i, o, dur) ==
              match Walk(pre, i, o, dur)
              case Done(o') => Walk(post, 0, o', dur)
              case Stop(x) => Stop(x)
    decreases |pre| - i
  {
    var all := pre + post;
    if i == |pre| {
      WalkShift(pre, post, 0, o, dur);
    } else {
      var arg := pre[i];
      assert all[i] == arg;
      if IsHelp(arg) {
      } else if TakesValue(arg) {
        if i + 1 < |pre| {
          assert all[i + 1] == pre[i + 1];
          var next := SetOption(arg, pre[i + 1], o, dur);
          if next.Ok? {
            WalkAppend(pre, post, i + 2, next.value, dur);
          }
        }
      } else if HasPrefix(arg, "-") {
      } else if o.service != "" {
      } else {
        WalkAppend(pre, post, i + 1, o.(service := arg), dur);
      }
    }
  }

  /** `-f` and `--file` are repeatable: each appends its value, in order. */
  lemma FileFlagAppends(pre: seq<string>, flag: string, x: string, o: Options, dur: DurationParser)
    requires flag == "-f" || flag == "--file"
    requires Walk(pre, 0, Defaults, dur) == Done(o)
    ensures Walk(pre + [flag, x], 0, Defaults, dur) == Done(o.(composeFiles := o.composeFiles + [x]))
  {
    WalkAppend(pre, [flag, x], 0, Defaults, dur);
  }

  /** `-e` and `--env-file` are repeatable: each appends its value, in order. */
  lemma EnvFlagAppends(pre: seq<string>, flag: string, x: string, o: Options, dur: DurationParser)
    requires flag == "-e" || flag == "--env-file"
    requires Walk(pre, 0, Defaults, dur) == Done(o)
    ensures Walk(pre + [flag, x], 0, Defaults, dur) == Done(o.(envFiles := o.envFiles + [x]))
  {
    WalkAppend(pre, [flag, x], 0, Defaults, dur);
  }

  /** `-t`/`--timeout` sets the health-check timeout to the value read as
      seconds, and an unparsable value is fatal. */
  lemma TimeoutFlagSets(pre: seq<string>, flag: string, x: string, o: Options, dur: DurationParser)
    requires flag == "-t" || flag == "--timeout"
    requires Walk(pre, 0, Defaults, dur) == Done(o)
    ensures dur(x + "s").None? ==> Finish(Walk(pre + [flag, x], 0, Defaults, dur)) == Fatal(InvalidDuration(flag, x))
    ensures dur(x + "s").Some? ==>
              Walk(pre + [flag, x], 0, Defaults, dur) == Done(o.(healthcheckTimeout := dur(x + "s").value))
  {
    WalkAppend(pre, [flag, x], 0, Defaults, dur);
  }

  /** `-w`/`--wait` sets the delay before the old containers are stopped. */
  lemma WaitFlagSets(pre: seq<string>, flag: string, x: string, o: Options, dur: DurationParser)
    requires flag == "-w" || flag == "--wait"
    requires Walk(pre, 0, Defaults, dur) == Done(o)
    ensures dur(x + "s").None? ==> Finish(Walk(pre + [flag, x], 0, Defaults, dur)) == Fatal(InvalidDuration(flag, x))
    ensures dur(x + "s").Some? ==>
              Walk(pre + [flag, x], 0, Defaults, dur) == Done(o.(noHealthcheckTimeout := dur(x + "s").value))
  {
    WalkAppend(pre, [flag, x], 0, Defaults, dur);
  }

  /** `-wa`/`--wait-after-healthy` sets the settling delay after the gate. */
  lemma WaitAfterHealthyFlagSets(pre: seq<string>, flag: string, x: string, o: Options, dur: DurationParser)
    requires flag == "-wa" || flag == "--wait-after-healthy"
    requires Walk(pre, 0, Defaults, dur) == Done(o)
    ensures dur(x + "s").None? ==> Finish(Walk(pre + [flag, x], 0, Defaults, dur)) == Fatal(InvalidDuration(flag, x))
    ensures dur(x + "s").Some? ==>
              Walk(pre + [flag, x], 0, Defaults, dur) == Done(o.(waitAfterHealthy := dur(x + "s").value))
  {
    WalkAppend(pre, [flag, x], 0, Defaults, dur);
  }

  /** `-tc`/`--traefik-conf` replaces the configuration path; the last one wins. */
  lemma TraefikConfFlagSets(pre: seq<string>, flag: string, x: string, o: Options, dur: DurationParser)
    requires flag == "-tc" || flag == "--traefik-conf"
    requires Walk(pre, 0, Defaults, dur) == Done(o)
    ensures Walk(pre + [flag, x], 0, Defaults, dur) == Done(o.(traefikConf := x))
  {
    WalkAppend(pre, [flag, x], 0, Defaults, dur);
  }

  /** `-p`/`--proxy` replaces the proxy type; it is checked only at the end. */
  lemma ProxyFlagSets(pre: seq<string>, flag: string, x: string, o: Options, dur: DurationParser)
    requires flag == "-p" || flag == "--proxy"
    requires Walk(pre, 0, Defaults, dur) == Done(o)
    ensures Walk(pre + [flag, x], 0, Defaults, dur) == Done(o.(proxyType := x))
  {
    WalkAppend(pre, [flag, x], 0, Defaults, dur);
  }

  /** The value after a flag is consumed with it and never becomes the
      service name. */
  lemma FlagValueIsNotService(pre: seq<string>, flag: string, v: string, post: seq<string>, o: Options, dur: DurationParser)
    requires TakesValue(flag)
    requires Walk(pre, 0, Defaults, dur) == Done(o)
    requires SetOption(flag, v, o, dur).Ok?
    ensures Walk(pre + [flag, v] + post, 0, Defaults, dur) == Walk(post, 0, SetOption(flag, v, o, dur).value, dur)
    ensures SetOption(flag, v, o, dur).value.service == o.service
  {
    WalkAppend(pre, [flag, v], 0, Defaults, dur);
    WalkAppend(pre + [flag, v], post, 0, Defaults, dur);
  }

  /** A value-taking flag as the last argument is fatal. */
  lemma TrailingValueFlag(pre: seq<string>, flag: string, o: Options, dur: DurationParser)
    requires TakesValue(flag)
    requires Walk(pre, 0, Defaults, dur) == Done(o)
    ensures Finish(Walk(pre + [flag], 0, Defaults, dur)) == Fatal(MissingValue(flag))
  {
    WalkAppend(pre, [flag], 0, Defaults, dur);
  }

  /** Any other argument starting with '-' is fatal, whatever follows. */
  lemma UnknownFlagFails(pre: seq<string>, arg: string, post: seq<string>, o: Options, dur: DurationParser)
    requires HasPrefix(arg, "-") && !IsHelp(arg) && !TakesValue(arg)
    requires Walk(pre, 0, Defaults, dur) == Done(o)
    ensures Finish(Walk(pre + [arg] + post, 0, Defaults, dur)) == Fatal(UnknownFlag(arg))
  {
    WalkAppend(pre, [arg] + post, 0, Defaults, dur);
    assert pre + [arg] + post == pre + ([arg] + post);
  }

  /** A second positional argument is fatal, whatever follows. */
  lemma SecondServiceFails(pre: seq<string>, arg: string, post: seq<string>, o: Options, dur: DurationParser)
    requires !HasPrefix(arg, "-") && o.service != ""
    requires Walk(pre, 0, Defaults, dur) == Done(o)
    ensures Finish(Walk(pre + [arg] + post, 0, Defaults, dur)) == Fatal(DuplicateService)
  {
    WalkAppend(pre, [arg] + post, 0, Defaults, dur);
    assert pre + [arg] + post == pre + ([arg] + post);
    assert !IsHelp(arg) && !TakesValue(arg);
  }

  /** A proxy type other than the two known ones is fatal. */
  lemma ProxyChecked(args: seq<string>, o: Options, dur: DurationParser)
    requires Walk(args, 0, Defaults, dur) == Done(o)
    ensures Finish(Walk(args, 0, Defaults, dur)) == (if ValidProxy(o.proxyType) then Parsed(o) else Fatal(InvalidProxy(o.proxyType)))
  {
  }

  /** `up -d` given as two arguments makes "-d" an unknown flag; only the
      single argument "up -d" selects a detached stack-up. */
  lemma UpDashDSplitIsUnknownFlag(dur: DurationParser)
    ensures Finish(Walk(["up", "-d"], 0, Defaults, dur)) == Fatal(UnknownFlag("-d"))
  {
    var args := ["up", "-d"];
    assert "up"[..1] == "u";
    assert HasPrefix("-d", "-");
    assert Walk(args, 0, Defaults, dur) == Walk(args, 1, Defaults.(service := "up"), dur);
  }
}
