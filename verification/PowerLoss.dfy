/** The cache of country files when power is lost: what was written but has not reached storage may
    be cut short, also after its rename. */
module PowerLoss {
  import opened Common
  import opened Runs
  import opened CountryText
  import CountryCache

  /** `syncs`: the text is forced to storage before it is renamed into place. The code as written
      does not wait for that. */
  datatype Config = Config(syncs: bool)

  /** `safe` are the names whose contents have reached storage. */
  datatype State = State(disk: CountryCache.State, safe: set<string>)

  /** `Lose` is a loss of power by which one file keeps only its first characters. */
  datatype Event = Ordinary(event: CountryCache.Event) | Reach(name: string) | Lose(name: string, kept: nat)

  const EMPTY: State := State(CountryCache.EMPTY, {})

  /** The names the operation in progress may change: the temporary file, and by a rename its target. */
  function Target(dbs: seq<CountryCache.Database>, disk: CountryCache.State): string {
    match disk.pc
    case Idle => ""
    case Called(code, d) => CountryCache.NameOf(dbs, code, d)
    case Missed(code, d) => CountryCache.NameOf(dbs, code, d)
    case Writing(code, d, _, _) => CountryCache.NameOf(dbs, code, d)
  }

  /** A written file has to reach storage again; a renamed one is as safe as it was, or made so. */
  function SafeAfter(
      cfg: Config, s: State, e: CountryCache.Event, next: CountryCache.State, target: string): set<string> {
    var temp := CountryCache.TempName(target);
    if next.files == s.disk.files then s.safe
    else if !e.Rename? then s.safe - {temp}
    else if cfg.syncs || temp in s.safe then s.safe - {temp} + {target}
    else s.safe - {temp} - {target}
  }

  function Cut(disk: CountryCache.State, name: string, kept: nat): CountryCache.State {
    if name in disk.files && kept < |disk.files[name]|
    then disk.(files := disk.files[name := disk.files[name][..kept]], pc := CountryCache.Idle)
    else disk.(pc := CountryCache.Idle)
  }

  function Step(cfg: Config, dbs: seq<CountryCache.Database>, s: State, e: Event): State {
    match e
    case Ordinary(event) =>
      var next := CountryCache.Step(dbs, s.disk, event);
      State(next, SafeAfter(cfg, s, event, next, Target(dbs, s.disk)))
    case Reach(name) => s.(safe := s.safe + {name})
    case Lose(name, kept) =>
      s.(disk := if name in s.safe then s.disk.(pc := CountryCache.Idle) else Cut(s.disk, name, kept))
  }

  function Stepper(cfg: Config, dbs: seq<CountryCache.Database>): (State, Event) -> State {
    (s, e) => Step(cfg, dbs, s, e)
  }

  function RunFrom(cfg: Config, dbs: seq<CountryCache.Database>, s: State, events: seq<Event>): State {
    Fold(Stepper(cfg, dbs), s, events)
  }

  function Run(cfg: Config, dbs: seq<CountryCache.Database>, events: seq<Event>): State {
    RunFrom(cfg, dbs, EMPTY, events)
  }

  // ---------------------------------------------------------------------
  // Forced to storage first.
  // ---------------------------------------------------------------------

  /** Every file under a cache name has reached storage. */
  ghost predicate CachesSafe(s: State) {
    forall code: string, length: nat ::
      CountryCache.Code(code) && CountryCache.CacheName(code, length) in s.disk.files ==>
        CountryCache.CacheName(code, length) in s.safe
  }

  /** No database has a network of any country. */
  ghost predicate NoCountry(dbs: seq<CountryCache.Database>) {
    forall d: nat, code: string :: d < |dbs| && CountryCache.Code(code) ==> CountryFile(dbs[d].items, code).Err?
  }

  /** A step changes files only under the two names of its call, and the target only by a rename. */
  ghost predicate Changes(files: map<string, string>, next: map<string, string>, target: string, rename: bool) {
    forall name: string :: name in next && name != CountryCache.TempName(target) && (name != target || !rename) ==>
      name in files && next[name] == files[name]
  }

  lemma StepChanges(dbs: seq<CountryCache.Database>, disk: CountryCache.State, e: CountryCache.Event)
    ensures Changes(disk.files, CountryCache.Step(dbs, disk, e).files, Target(dbs, disk), e.Rename?)
  {
    hide CountryFile, CountryCache.TempName, CountryCache.NameOf, NormalizeCountry;
  }

  lemma TargetIsName(dbs: seq<CountryCache.Database>, disk: CountryCache.State)
    requires !disk.pc.Idle?
    ensures exists code: string, length: nat :: Target(dbs, disk) == CountryCache.CacheName(code, length)
  {
    hide CountryCache.CacheName;
    var d := disk.pc.d;
    assert Target(dbs, disk) == CountryCache.CacheName(disk.pc.code, if d < |dbs| then dbs[d].length else 0);
  }

  lemma TempNotCache(dbs: seq<CountryCache.Database>, disk: CountryCache.State, code: string, length: nat)
    requires !disk.pc.Idle?
    ensures CountryCache.TempName(Target(dbs, disk)) != CountryCache.CacheName(code, length)
  {
    TargetIsName(dbs, disk);
    hide CountryCache.CacheName, CountryCache.TempName, Target;
    var c: string, n: nat :| Target(dbs, disk) == CountryCache.CacheName(c, n);
    CountryCache.TempApart(c, n, code, length);
  }

  lemma IdleKeeps(dbs: seq<CountryCache.Database>, disk: CountryCache.State, e: CountryCache.Event)
    requires disk.pc.Idle?
    ensures CountryCache.Step(dbs, disk, e).files == disk.files
  {
  }

  lemma OrdinarySafe(cfg: Config, dbs: seq<CountryCache.Database>, s: State, e: CountryCache.Event)
    requires cfg.syncs && CachesSafe(s)
    ensures CachesSafe(Step(cfg, dbs, s, Ordinary(e)))
  {
    var n, target := Step(cfg, dbs, s, Ordinary(e)), Target(dbs, s.disk);
    StepChanges(dbs, s.disk, e);
    if s.disk.pc.Idle? { IdleKeeps(dbs, s.disk, e); }
    hide CountryCache.CacheName, CountryCache.TempName, CountryCache.Step, CountryCache.Code, Target;
    forall code: string, length: nat
      | CountryCache.Code(code) && CountryCache.CacheName(code, length) in n.disk.files
      ensures CountryCache.CacheName(code, length) in n.safe
    {
      if n.disk.files != s.disk.files { TempNotCache(dbs, s.disk, code, length); }
    }
  }

  /** Cutting a file that is not under a cache name. */
  lemma CutInv(dbs: seq<CountryCache.Database>, disk: CountryCache.State, name: string, kept: nat)
    requires CountryCache.Inv(dbs, disk)
    requires forall code: string, length: nat ::
               CountryCache.Code(code) && CountryCache.CacheName(code, length) in disk.files ==>
                 CountryCache.CacheName(code, length) != name
    ensures CountryCache.Inv(dbs, Cut(disk, name, kept))
  {
    hide CountryCache.CacheName, CountryCache.Code, CountryCache.FullText, CountryCache.AnswerOk;
  }

  lemma NoneThere(dbs: seq<CountryCache.Database>, files: map<string, string>)
    requires NoCountry(dbs) && CountryCache.FilesOk(dbs, files)
    ensures forall code: string, length: nat ::
              CountryCache.Code(code) ==> CountryCache.CacheName(code, length) !in files
  {
    hide CountryFile, CountryCache.CacheName, CountryCache.Code;
  }

  ghost predicate Inv(cfg: Config, dbs: seq<CountryCache.Database>, s: State) {
    CountryCache.Inv(dbs, s.disk) && (cfg.syncs ==> CachesSafe(s))
  }

  lemma StepInv(cfg: Config, dbs: seq<CountryCache.Database>, s: State, e: Event)
    requires (cfg.syncs || NoCountry(dbs)) && Inv(cfg, dbs, s)
    ensures Inv(cfg, dbs, Step(cfg, dbs, s, e))
  {
    hide CountryCache.Inv, CountryCache.CacheName, CountryCache.Code, CountryCache.FilesOk, NoCountry;
    match e
    case Ordinary(event) =>
      CountryCache.StepInv(dbs, s.disk, event);
      if cfg.syncs { OrdinarySafe(cfg, dbs, s, event); }
    case Reach(_) =>
    case Lose(name, kept) =>
      FilesPart(dbs, s.disk);
      if !cfg.syncs { NoneThere(dbs, s.disk.files); }
      StopPart(dbs, s.disk);
      if name !in s.safe { CutInv(dbs, s.disk, name, kept); }
  }

  lemma FilesPart(dbs: seq<CountryCache.Database>, disk: CountryCache.State)
    requires CountryCache.Inv(dbs, disk)
    ensures CountryCache.FilesOk(dbs, disk.files)
  {
  }

  lemma StopPart(dbs: seq<CountryCache.Database>, disk: CountryCache.State)
    requires CountryCache.Inv(dbs, disk)
    ensures CountryCache.Inv(dbs, disk.(pc := CountryCache.Idle))
  {
    CountryCache.StopInv(dbs, disk);
  }

  lemma {:induction false} RunInv(cfg: Config, dbs: seq<CountryCache.Database>, s: State, events: seq<Event>)
    requires (cfg.syncs || NoCountry(dbs)) && Inv(cfg, dbs, s)
    ensures Inv(cfg, dbs, RunFrom(cfg, dbs, s, events))
    decreases |events|
  {
    hide Inv, Step, NoCountry;
    if events != [] {
      StepInv(cfg, dbs, s, events[0]);
      RunInv(cfg, dbs, Step(cfg, dbs, s, events[0]), events[1..]);
    }
  }

  // ---------------------------------------------------------------------
  // As written.
  // ---------------------------------------------------------------------

  function Lifted(events: seq<CountryCache.Event>): seq<Event> {
    if events == [] then [] else [Ordinary(events[0])] + Lifted(events[1..])
  }

  /** Without a loss of power the runs are those of the cache. */
  lemma {:induction false} LiftedRun(
      cfg: Config, dbs: seq<CountryCache.Database>, s: State, events: seq<CountryCache.Event>)
    ensures RunFrom(cfg, dbs, s, Lifted(events)).disk == CountryCache.RunFrom(dbs, s.disk, events)
    ensures !cfg.syncs && s.safe == {} ==> RunFrom(cfg, dbs, s, Lifted(events)).safe == {}
    decreases |events|
  {
    hide CountryCache.Step;
    if events != [] {
      assert Lifted(events)[1..] == Lifted(events[1..]);
      LiftedRun(cfg, dbs, Step(cfg, dbs, s, Ordinary(events[0])), events[1..]);
    }
  }

  function WholeCall(code: string, d: nat, size: nat): seq<CountryCache.Event> {
    [CountryCache.Call(code, d), CountryCache.Look, CountryCache.Build, CountryCache.Write(size)]
    + [CountryCache.Rename]
  }

  lemma CallRun(cfg: Config, dbs: seq<CountryCache.Database>, code: string, d: nat, text: string)
    requires !cfg.syncs && CountryCache.Code(code) && d < |dbs| && CountryFile(dbs[d].items, code) == Ok(text)
    ensures var s := Run(cfg, dbs, Lifted(WholeCall(code, d, |text|)));
            s.disk.files == map[CountryCache.CacheName(code, dbs[d].length) := text] && s.safe == {}
  {
    LiftedRun(cfg, dbs, EMPTY, WholeCall(code, d, |text|));
    CountryCache.FirstCall(dbs, code, d, text);
  }

  /** A call writes the file of a country, and power is lost before its text has reached storage. */
  function CallThenLose(dbs: seq<CountryCache.Database>, code: string, d: nat, size: nat, kept: nat): seq<Event>
    requires d < |dbs|
  {
    Lifted(WholeCall(code, d, size)) + [Lose(CountryCache.CacheName(code, dbs[d].length), kept)]
  }

  lemma ShortFile(cfg: Config, dbs: seq<CountryCache.Database>, code: string, d: nat, text: string, kept: nat)
    requires !cfg.syncs && CountryCache.Code(code) && d < |dbs|
    requires CountryFile(dbs[d].items, code) == Ok(text) && kept < |text|
    ensures var disk := Run(cfg, dbs, CallThenLose(dbs, code, d, |text|, kept)).disk;
            disk.pc.Idle? && disk.files == map[CountryCache.CacheName(code, dbs[d].length) := text[..kept]]
  {
    hide Fold, Lifted, WholeCall, CountryCache.CacheName, CountryFile, CountryCache.Code;
    var call, name := Lifted(WholeCall(code, d, |text|)), CountryCache.CacheName(code, dbs[d].length);
    CallRun(cfg, dbs, code, d, text);
    FoldSnoc(Stepper(cfg, dbs), EMPTY, call, Lose(name, kept));
    assert map[name := text][name := text[..kept]] == map[name := text[..kept]];
  }

  lemma ShortIsNotWhole(dbs: seq<CountryCache.Database>, code: string, length: nat)
    requires CountryCache.Code(code)
    ensures !CountryCache.FilesOk(dbs, map[CountryCache.CacheName(code, length) := ""])
  {
    hide CountryCache.CacheName, CountryFile, CountryCache.Code;
    forall d: nat | d < |dbs|
      ensures CountryFile(dbs[d].items, code) != Ok("")
    {
      CountryCache.FilesHaveText(dbs[d].items, code);
    }
  }

  /** With losses of power, files under cache names are whole in every run exactly when the text is
      forced to storage before the rename, or there is no file to write at all. */
  lemma WholeIff(cfg: Config, dbs: seq<CountryCache.Database>)
    ensures (forall events: seq<Event> :: CountryCache.FilesOk(dbs, Run(cfg, dbs, events).disk.files))
            <==> cfg.syncs || NoCountry(dbs)
  {
    hide Fold, Step, CountryCache.FilesOk, CountryCache.CacheName, CountryFile, CountryCache.Code;
    if cfg.syncs || NoCountry(dbs) {
      forall events: seq<Event>
        ensures CountryCache.FilesOk(dbs, Run(cfg, dbs, events).disk.files)
      {
        EmptyInv(cfg, dbs);
        RunInv(cfg, dbs, EMPTY, events);
      }
    } else {
      var d: nat, code: string :| d < |dbs| && CountryCache.Code(code) && CountryFile(dbs[d].items, code).Ok?;
      var text := CountryFile(dbs[d].items, code).value;
      CountryCache.FilesHaveText(dbs[d].items, code);
      ShortFile(cfg, dbs, code, d, text, 0);
      ShortIsNotWhole(dbs, code, dbs[d].length);
      assert text[..0] == "";
    }
  }

  lemma EmptyInv(cfg: Config, dbs: seq<CountryCache.Database>)
    ensures Inv(cfg, dbs, EMPTY)
  {
    CountryCache.EmptyInv(dbs);
  }

  /** A file cut short is handed back by every later call, unless nothing is left of it. */
  lemma ShortFileServed(cfg: Config, dbs: seq<CountryCache.Database>, code: string, d: nat, text: string, kept: nat)
    requires !cfg.syncs && CountryCache.Code(code) && d < |dbs|
    requires CountryFile(dbs[d].items, code) == Ok(text) && 0 < kept < |text|
    ensures var lost := Run(cfg, dbs, CallThenLose(dbs, code, d, |text|, kept));
            var again := RunFrom(cfg, dbs, lost, Lifted([CountryCache.Call(code, d)] + [CountryCache.Look])).disk;
            var name := CountryCache.CacheName(code, dbs[d].length);
            again.answers == lost.disk.answers + [CountryCache.Answer(code, d, name, text[..kept])]
  {
    ShortFile(cfg, dbs, code, d, text, kept);
    var lost := Run(cfg, dbs, CallThenLose(dbs, code, d, |text|, kept));
    LiftedRun(cfg, dbs, lost, [CountryCache.Call(code, d)] + [CountryCache.Look]);
    hide Fold, CountryCache.CacheName, CountryFile, CountryCache.Code, Lifted;
    CountryCache.SecondCall(dbs, lost.disk, code, d);
  }

  /** In every run a file whose text has just reached storage survives a loss of power whole, and one
      whose text has not is cut to what reached it. */
  lemma {:induction false} ReachedSurvives(
      cfg: Config, dbs: seq<CountryCache.Database>, events: seq<Event>, name: string, kept: nat)
    ensures Run(cfg, dbs, events + [Reach(name)] + [Lose(name, kept)]).disk.files == Run(cfg, dbs, events).disk.files
    ensures var s := Run(cfg, dbs, events);
            name in s.disk.files && name !in s.safe && kept < |s.disk.files[name]| ==>
              Run(cfg, dbs, events + [Lose(name, kept)]).disk.files
              == s.disk.files[name := s.disk.files[name][..kept]]
  {
    hide Fold;
    FoldSnoc(Stepper(cfg, dbs), EMPTY, events, Reach(name));
    FoldSnoc(Stepper(cfg, dbs), EMPTY, events + [Reach(name)], Lose(name, kept));
    FoldSnoc(Stepper(cfg, dbs), EMPTY, events, Lose(name, kept));
  }
}
