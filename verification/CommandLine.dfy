// The command line (ParseCommandLine in ycsbc.cc).

module CommandLine {
  import opened Wrappers
  import P = Properties

  datatype Opt =
    | Threads(count: string)
    | Db(name: string)
    | File(path: string)
    | Load
    | Run
    | Set(key: string, value: string)

  // The files that can be opened, with their contents.
  type Files = map<string, string>

  // ---- Writing options -------------------------------------------------------------

  function Written(o: Opt): seq<string> {
    match o
    case Threads(n) => ["-threads", n]
    case Db(name) => ["-db", name]
    case File(path) => ["-P", path]
    case Load => ["-load"]
    case Run => ["-run"]
    case Set(key, value) => ["-p", key + "=" + value]
  }

  function AllWritten(options: seq<Opt>): seq<string> {
    if options == [] then [] else Written(options[0]) + AllWritten(options[1..])
  }

  // A -p key has no '=', and a -P file can be opened.
  predicate Writable(o: Opt, files: Files) {
    (o.Set? ==> '=' !in o.key) && (o.File? ==> o.path in files)
  }

  predicate AllWritable(options: seq<Opt>, files: Files) {
    forall i | 0 <= i < |options| :: Writable(options[i], files)
  }

  // ---- Reading options -------------------------------------------------------------

  // Load throws utils::Exception for a file that is not open, but the handler around it
  // catches const string &, so the exception leaves ParseCommandLine.
  datatype Reading = Read(option: Opt, rest: seq<string>) | BadOption | NoFile

  function ReadOption(args: seq<string>, files: Files): (r: Reading)
    requires args != []
    ensures r.Read? ==> |r.rest| < |args|
  {
    if args[0] == "-load" then Read(Load, args[1..])
    else if args[0] == "-run" then Read(Run, args[1..])
    else if args[0] !in ["-threads", "-db", "-P", "-p"] || |args| == 1 then BadOption
    else if args[0] == "-threads" then Read(Threads(args[1]), args[2..])
    else if args[0] == "-db" then Read(Db(args[1]), args[2..])
    else if args[0] == "-P" then
      if args[1] in files then Read(File(args[1]), args[2..]) else NoFile
    else
      match P.Find(args[1], '=')
      case None => BadOption
      case Some(pos) => Read(Set(args[1][..pos], args[1][pos + 1..]), args[2..])
  }

  datatype Parse = Options(options: seq<Opt>) | Malformed | Unopened

  function Prepend(options: seq<Opt>, p: Parse): Parse {
    match p
    case Options(more) => Options(options + more)
    case _ => p
  }

  function ReadAll(args: seq<string>, files: Files): Parse
    decreases |args|
  {
    if args == [] then Options([])
    else
      match ReadOption(args, files)
      case Read(o, rest) => Prepend([o], ReadAll(rest, files))
      case BadOption => Malformed
      case NoFile => Unopened
  }

  lemma ReadWritten(o: Opt, rest: seq<string>, files: Files)
    requires Writable(o, files)
    ensures ReadOption(Written(o) + rest, files) == Read(o, rest)
  {
    var args := Written(o) + rest;
    assert args[|Written(o)|..] == rest;
    if o.Set? {
      assert args[1] == o.key + ['='] + o.value;
      P.FindInConcat(o.key, '=', o.value);
      assert args[1][..|o.key|] == o.key && args[1][|o.key| + 1..] == o.value;
    }
  }

  lemma WrittenRead(args: seq<string>, files: Files)
    requires args != []
    ensures ReadOption(args, files).Read? ==>
              var r := ReadOption(args, files);
              Writable(r.option, files) && args == Written(r.option) + r.rest
  {
    hide P.Find;
    if args[0] == "-p" && |args| > 1 && P.Find(args[1], '=').Some? {
      P.FindIsFirst(args[1], '=');
      var pos := P.Find(args[1], '=').value;
      assert args[1] == args[1][..pos] + "=" + args[1][pos + 1..];
    }
  }

  lemma {:induction false} WrittenOptionsRead(options: seq<Opt>, files: Files)
    requires AllWritable(options, files)
    ensures ReadAll(AllWritten(options), files) == Options(options)
  {
    hide ReadOption, Writable, Written;
    if options != [] {
      WrittenIsSome(options[0]);
      ReadWritten(options[0], AllWritten(options[1..]), files);
      WrittenOptionsRead(options[1..], files);
    }
  }

  lemma WrittenIsSome(o: Opt)
    ensures Written(o) != []
  {
  }

  lemma {:induction false} ReadOptionsWritten(args: seq<string>, files: Files)
    requires ReadAll(args, files).Options?
    ensures AllWritable(ReadAll(args, files).options, files)
    ensures AllWritten(ReadAll(args, files).options) == args
    decreases |args|
  {
    hide ReadOption, Writable, Written;
    if args != [] {
      WrittenRead(args, files);
      var r := ReadOption(args, files);
      ReadOptionsWritten(r.rest, files);
      var more := ReadAll(r.rest, files).options;
      assert ([r.option] + more)[1..] == more;
    }
  }

  // The options read from arguments are the only ones written as those arguments.
  lemma ArgumentsDetermineOptions(args: seq<string>, options: seq<Opt>, files: Files)
    ensures ReadAll(args, files) == Options(options) <==> AllWritten(options) == args && AllWritable(options, files)
  {
    hide ReadAll, AllWritten, AllWritable;
    if ReadAll(args, files).Options? {
      ReadOptionsWritten(args, files);
    }
    if AllWritten(options) == args && AllWritable(options, files) {
      WrittenOptionsRead(options, files);
    }
  }

  // ---- What options mean -----------------------------------------------------------

  function Effect(o: Opt, files: Files): seq<P.Setting> {
    match o
    case Threads(n) => [("threadcount", n)]
    case Db(name) => [("dbname", name)]
    case File(path) => if path in files then P.SettingsOf(P.Lines(files[path])) else []
    case Load => []
    case Run => []
    case Set(key, value) => [(key, value)]
  }

  function Effects(options: seq<Opt>, files: Files): seq<P.Setting> {
    if options == [] then [] else Effect(options[0], files) + Effects(options[1..], files)
  }

  function LastFile(options: seq<Opt>): string {
    if options == [] then ""
    else if options[|options| - 1].File? then options[|options| - 1].path
    else LastFile(options[..|options| - 1])
  }

  lemma {:induction false} EffectsConcat(a: seq<Opt>, b: seq<Opt>, files: Files)
    ensures Effects(a + b, files) == Effects(a, files) + Effects(b, files)
  {
    hide Effect;
    if a == [] {
      assert a + b == b;
    } else {
      EffectsConcat(a[1..], b, files);
      var first := Effect(a[0], files);
      assert (a + b)[1..] == a[1..] + b && (a + b)[0] == a[0];
      assert Effects(a + b, files) == first + (Effects(a[1..], files) + Effects(b, files));
    }
  }

  lemma EffectOfOne(options: seq<Opt>, o: Opt, files: Files, props: map<string, string>)
    ensures P.Updated(props, Effects(options + [o], files))
            == P.Updated(P.Updated(props, Effects(options, files)), Effect(o, files))
  {
    hide Effect, P.Updated;
    EffectsConcat(options, [o], files);
    assert [o][1..] == [];
    assert Effects([o], files) == Effect(o, files) + Effects([], files);
    assert Effect(o, files) + [] == Effect(o, files);
    P.UpdatedConcat(props, Effects(options, files), Effect(o, files));
  }

  datatype Outcome = Accepted(filename: string) | Exit | Uncaught

  function OutcomeOf(p: Parse): Outcome {
    match p
    case Options(options) => if options == [] then Exit else Accepted(LastFile(options))
    case Malformed => Exit
    case Unopened => Uncaught
  }

  // What the loop of ParseCommandLine has done with the options read so far.
  ghost predicate Reached(done: seq<Opt>, argv: seq<string>, argindex: nat, files: Files,
                          before: map<string, string>, now: map<string, string>,
                          filename: string, doLoad: bool, doRun: bool)
    requires 1 <= argindex <= |argv|
  {
    && ReadAll(argv[1..], files) == Prepend(done, ReadAll(argv[argindex..], files))
    && now == P.Updated(before, Effects(done, files))
    && filename == LastFile(done)
    && (doLoad <==> Load in done)
    && (doRun <==> Run in done)
    && (done == [] <==> argindex == 1)
  }

  lemma OneMore(done: seq<Opt>, o: Opt, next: nat, argv: seq<string>, argindex: nat, files: Files,
                before: map<string, string>, now: map<string, string>, filename: string, doLoad: bool, doRun: bool)
    requires 1 <= argindex < next <= |argv|
    requires Reached(done, argv, argindex, files, before, now, filename, doLoad, doRun)
    requires ReadOption(argv[argindex..], files) == Read(o, argv[next..])
    ensures Reached(done + [o], argv, next, files, before, P.Updated(now, Effect(o, files)),
                    if o.File? then o.path else filename, doLoad || o == Load, doRun || o == Run)
  {
    hide P.Updated, Effect, Effects, ReadOption;
    EffectOfOne(done, o, files, before);
    assert (done + [o])[..|done|] == done;
    var rest := ReadAll(argv[next..], files);
    assert ReadAll(argv[argindex..], files) == Prepend([o], rest);
    if rest.Options? {
      assert done + ([o] + rest.options) == done + [o] + rest.options;
    }
  }

  lemma NothingYet(argv: seq<string>, files: Files, now: map<string, string>)
    requires argv != []
    ensures Reached([], argv, 1, files, now, now, "", false, false)
  {
    var p := ReadAll(argv[1..], files);
    assert p.Options? ==> [] + p.options == p.options;
  }

  // The loop ends at the end of the arguments or at one that is not an option.
  lemma Ends(done: seq<Opt>, argv: seq<string>, argindex: nat, files: Files,
             before: map<string, string>, now: map<string, string>, filename: string, doLoad: bool, doRun: bool)
    requires 1 <= argindex <= |argv|
    requires Reached(done, argv, argindex, files, before, now, filename, doLoad, doRun)
    requires argindex == |argv| || argv[argindex] == "" || argv[argindex][0] != '-'
    ensures argindex == 1 || argindex != |argv| ==> OutcomeOf(ReadAll(argv[1..], files)) == Exit
    ensures argindex != 1 && argindex == |argv| ==>
              done != [] && filename == LastFile(done) && ReadAll(argv[1..], files) == Options(done)
    ensures now == P.Updated(before, Effects(done, files)) && (doLoad <==> Load in done) && (doRun <==> Run in done)
  {
    hide LastFile, Effects, P.Updated;
    if argindex == |argv| {
      assert argv[argindex..] == [];
      assert done + [] == done;
    } else {
      assert argv[argindex..][0] == argv[argindex];
      assert ReadOption(argv[argindex..], files) == BadOption;
    }
  }

  lemma Fails(done: seq<Opt>, argv: seq<string>, argindex: nat, files: Files,
              before: map<string, string>, now: map<string, string>, filename: string, doLoad: bool, doRun: bool)
    requires 1 <= argindex < |argv|
    requires Reached(done, argv, argindex, files, before, now, filename, doLoad, doRun)
    requires !ReadOption(argv[argindex..], files).Read?
    ensures OutcomeOf(ReadAll(argv[1..], files))
            == if ReadOption(argv[argindex..], files).NoFile? then Uncaught else Exit
  {
    hide ReadOption, LastFile, Effects, P.Updated;
  }

  lemma OneEffect(o: Opt, files: Files, now: map<string, string>)
    ensures o.Threads? ==> P.Updated(now, Effect(o, files)) == now["threadcount" := o.count]
    ensures o.Db? ==> P.Updated(now, Effect(o, files)) == now["dbname" := o.name]
    ensures o.File? && o.path in files ==> P.Updated(now, Effect(o, files)) == P.LoadedText(now, files[o.path])
    ensures o.Load? || o.Run? ==> P.Updated(now, Effect(o, files)) == now
    ensures o.Set? ==> P.Updated(now, Effect(o, files)) == now[o.key := o.value]
  {
    hide P.SettingsOf, P.Lines;
  }

  method ParseCommandLine(argv: seq<string>, files: Files, props: P.PropertySet)
    returns (outcome: Outcome, doLoad: bool, doRun: bool)
    requires argv != []
    modifies props
    ensures outcome == OutcomeOf(ReadAll(argv[1..], files))
    ensures outcome.Accepted? ==>
              var options := ReadAll(argv[1..], files).options;
              && props.properties == P.Updated(old(props.properties), Effects(options, files))
              && (doLoad <==> Load in options)
              && (doRun <==> Run in options)
  {
    hide P.Updated, P.LoadedText, P.Find, P.SettingsOf, P.Lines, P.Trim;
    hide Effect, Effects, LastFile, ReadAll, Reached;
    var argindex := 1;
    var filename := "";
    doLoad, doRun := false, false;
    ghost var before := props.properties;
    ghost var done: seq<Opt> := [];
    NothingYet(argv, files, before);
    while argindex < |argv| && |argv[argindex]| > 0 && argv[argindex][0] == '-'
      invariant 1 <= argindex <= |argv|
      invariant Reached(done, argv, argindex, files, before, props.properties, filename, doLoad, doRun)
    {
      ghost var o: Opt;
      ghost var at := argindex;
      ghost var was := (props.properties, filename, doLoad, doRun);
      ghost var reading := ReadOption(argv[at..], files);
      assert argv[at..][1..] == argv[at + 1..];
      assert at + 1 < |argv| ==> argv[at..][2..] == argv[at + 2..];
      if !reading.Read? {
        Fails(done, argv, at, files, before, was.0, was.1, was.2, was.3);
      }
      var option := argv[argindex];
      argindex := argindex + 1;
      if option == "-load" {
        doLoad := true;
        o := Load;
      } else if option == "-run" {
        doRun := true;
        o := Run;
      } else if option !in ["-threads", "-db", "-P", "-p"] || argindex >= |argv| {
        return Exit, doLoad, doRun;
      } else {
        var value := argv[argindex];
        argindex := argindex + 1;
        if option == "-threads" {
          props.SetProperty("threadcount", value);
          o := Threads(value);
        } else if option == "-db" {
          props.SetProperty("dbname", value);
          o := Db(value);
        } else if option == "-P" {
          filename := value;
          var threw := props.Load(if value in files then Some(files[value]) else None);
          if threw {
            return Uncaught, doLoad, doRun;
          }
          o := File(value);
        } else {
          P.FindIsFirst(value, '=');
          var eqpos := P.Find(value, '=');
          if eqpos.None? {
            return Exit, doLoad, doRun;
          }
          props.SetProperty(value[..eqpos.value], value[eqpos.value + 1..]);
          o := Set(value[..eqpos.value], value[eqpos.value + 1..]);
        }
      }
      assert reading == Read(o, argv[argindex..]);
      OneEffect(o, files, was.0);
      OneMore(done, o, argindex, argv, at, files, before, was.0, was.1, was.2, was.3);
      done := done + [o];
    }
    Ends(done, argv, argindex, files, before, props.properties, filename, doLoad, doRun);
    if argindex == 1 || argindex != |argv| {
      return Exit, doLoad, doRun;
    }
    outcome := Accepted(filename);
  }

  // ---- Results ---------------------------------------------------------------------

  // A command line is accepted exactly when it is the writing of some options, of which
  // there is at least one.
  lemma AcceptedCommandLines(args: seq<string>, files: Files)
    ensures OutcomeOf(ReadAll(args, files)).Accepted?
            <==> exists options :: options != [] && AllWritten(options) == args && AllWritable(options, files)
  {
    hide ReadAll, AllWritten, AllWritable;
    forall options
      ensures ReadAll(args, files) == Options(options)
              <==> AllWritten(options) == args && AllWritable(options, files)
    {
      ArgumentsDetermineOptions(args, options, files);
    }
    if ReadAll(args, files).Options? {
      assert AllWritten(ReadAll(args, files).options) == args;
    }
  }

  // A property has the value of the last option that sets it, -p, -P and the others
  // alike, or else the one it had before.
  lemma LastOptionWins(props: map<string, string>, a: seq<Opt>, b: seq<Opt>, files: Files, key: string)
    ensures var after := P.Updated(props, Effects(a + b, files));
            var before := P.Updated(props, Effects(a, files));
            match P.LastValue(Effects(b, files), key)
            case Some(value) => key in after && after[key] == value
            case None => (key in after <==> key in before) && (key in after ==> after[key] == before[key])
  {
    hide Effects, P.LastValue, P.Updated;
    EffectsConcat(a, b, files);
    P.UpdatedConcat(props, Effects(a, files), Effects(b, files));
    P.LastSettingWins(P.Updated(props, Effects(a, files)), Effects(b, files), key);
  }

  // What one more option at the end of the arguments does, name by name.
  lemma OneMoreArgument(props: map<string, string>, args: seq<string>, files: Files, v: string, key: string)
    requires ReadAll(args, files).Options? && '=' !in key
    ensures var a := ReadAll(args, files).options;
            var before := P.Updated(props, Effects(a, files));
            && Acts(props, args + ["-threads", v], files, before["threadcount" := v], LastFile(a), Load in a, Run in a)
            && Acts(props, args + ["-db", v], files, before["dbname" := v], LastFile(a), Load in a, Run in a)
            && Acts(props, args + ["-p", key + "=" + v], files, before[key := v], LastFile(a), Load in a, Run in a)
            && Acts(props, args + ["-load"], files, before, LastFile(a), true, Run in a)
            && Acts(props, args + ["-run"], files, before, LastFile(a), Load in a, true)
            && (v in files ==>
                  Acts(props, args + ["-P", v], files, P.LoadedText(before, files[v]), v, Load in a, Run in a))
  {
    hide Acts;
    OneMoreOption(props, args, files, Threads(v));
    OneMoreOption(props, args, files, Db(v));
    OneMoreOption(props, args, files, Set(key, v));
    OneMoreOption(props, args, files, Load);
    OneMoreOption(props, args, files, Run);
    var now := P.Updated(props, Effects(ReadAll(args, files).options, files));
    OneEffect(Threads(v), files, now);
    OneEffect(Db(v), files, now);
    OneEffect(Set(key, v), files, now);
    OneEffect(Load, files, now);
    OneEffect(Run, files, now);
    if v in files {
      OneEffect(File(v), files, now);
      OneMoreOption(props, args, files, File(v));
    }
  }

  // Arguments that are accepted, with these effects.
  predicate Acts(props: map<string, string>, args: seq<string>, files: Files,
                 after: map<string, string>, filename: string, doLoad: bool, doRun: bool)
  {
    && ReadAll(args, files).Options?
    && var b := ReadAll(args, files).options;
       && P.Updated(props, Effects(b, files)) == after
       && OutcomeOf(ReadAll(args, files)) == Accepted(filename)
       && (Load in b <==> doLoad) && (Run in b <==> doRun)
  }

  lemma OneMoreOption(props: map<string, string>, args: seq<string>, files: Files, o: Opt)
    requires ReadAll(args, files).Options? && Writable(o, files)
    ensures var a := ReadAll(args, files).options;
            Acts(props, args + Written(o), files, P.Updated(P.Updated(props, Effects(a, files)), Effect(o, files)),
                 if o.File? then o.path else LastFile(a), Load in a || o == Load, Run in a || o == Run)
  {
    hide ReadAll, AllWritten, P.Updated, Effects, Effect, Written;
    var a := ReadAll(args, files).options;
    ArgumentsDetermineOptions(args, a, files);
    WrittenConcat(a, o);
    ArgumentsDetermineOptions(args + Written(o), a + [o], files);
    EffectOfOne(a, o, files, props);
    assert (a + [o])[..|a|] == a;
  }

  lemma {:induction false} WrittenConcat(a: seq<Opt>, o: Opt)
    ensures AllWritten(a + [o]) == AllWritten(a) + Written(o)
  {
    hide Written;
    if a == [] {
      assert [] + [o] == [o] && [o][1..] == [];
      assert AllWritten([o]) == Written(o) + AllWritten([]);
    } else {
      WrittenConcat(a[1..], o);
      assert (a + [o])[1..] == a[1..] + [o];
    }
  }

  // Two files in a row are one file of both texts.
  lemma FilesInOrder(props: map<string, string>, files: Files, first: string, second: string)
    requires first in files && second in files
    ensures P.Updated(props, Effects([File(first), File(second)], files))
            == P.LoadedText(props, files[first] + "\n" + files[second])
  {
    hide Effect, P.LoadedText;
    EffectOfOne([], File(first), files, props);
    EffectOfOne([File(first)], File(second), files, props);
    assert [] + [File(first)] == [File(first)];
    assert [File(first)] + [File(second)] == [File(first), File(second)];
    OneEffect(File(first), files, props);
    OneEffect(File(second), files, P.LoadedText(props, files[first]));
    assert P.Updated(props, Effects([], files)) == props;
    P.LoadIsCompositional(props, files[first], files[second]);
  }

  function AsOptions(settings: seq<P.Setting>): seq<Opt> {
    if settings == [] then [] else [Set(settings[0].0, settings[0].1)] + AsOptions(settings[1..])
  }

  lemma {:induction false} EffectsOfSettings(settings: seq<P.Setting>, files: Files)
    ensures Effects(AsOptions(settings), files) == settings
  {
    if settings != [] {
      EffectsOfSettings(settings[1..], files);
      assert AsOptions(settings)[1..] == AsOptions(settings[1..]);
    }
  }

  // A file of printed settings does what those settings given by -p do.
  lemma FileIsItsSettings(props: map<string, string>, files: Files, path: string, settings: seq<P.Setting>)
    requires path in files && P.AllPrintable(settings) && files[path] == P.Print(settings)
    ensures P.Updated(props, Effect(File(path), files)) == P.Updated(props, Effects(AsOptions(settings), files))
  {
    hide P.Updated, P.AllPrintable, P.Print, P.LoadedText, AsOptions, Effects, Effect;
    EffectsOfSettings(settings, files);
    OneEffect(File(path), files, props);
    P.PrintedSettingsLoad(props, settings);
  }
}
