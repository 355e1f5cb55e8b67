/** The on-disk cache of country files: file names, the lookup, and the write to a temporary file
    followed by a rename, in runs with failures and crashes between any two file operations. */
module CountryCache {
  import opened Bits
  import opened Common
  import opened Runs
  import opened DottedText
  import opened CountryText

  /** A database release: what a walk yields, and the length of the file. */
  datatype Database = Database(items: seq<Item>, length: nat)

  // ---------------------------------------------------------------------
  // File names.
  // ---------------------------------------------------------------------

  function CacheName(code: string, length: nat): string {
    "chnroute-" + (code + "-" + (Dec(length) + ".txt"))
  }

  /** Position of the last dot. */
  function LastDot(s: string): (r: Option<nat>)
    ensures r.Some? ==> r.value < |s|
  {
    if s == [] then None
    else if s[|s| - 1] == '.' then Some(|s| - 1)
    else LastDot(s[..|s| - 1])
  }

  /** `Path::with_extension`: what follows the last dot is replaced, unless that dot comes first. */
  function WithExtension(name: string, extension: string): string {
    match LastDot(name)
    case None => name + "." + extension
    case Some(k) => if k == 0 then name + "." + extension else name[..k] + "." + extension
  }

  function TempName(name: string): string {
    WithExtension(name, "txt.tmp")
  }

  lemma {:induction false} DecInjective(m: nat, n: nat)
    requires Dec(m) == Dec(n)
    ensures m == n
  {
    var s, t := Dec(m), Dec(n);
    assert s[|s| - 1] == DigitOf(m % 10) && t[|t| - 1] == DigitOf(n % 10);
    assert DigitValue(s[|s| - 1]) == m % 10 && DigitValue(t[|t| - 1]) == n % 10;
    if m >= 10 && n >= 10 {
      assert s[..|s| - 1] == Dec(m / 10) && t[..|t| - 1] == Dec(n / 10);
      DecInjective(m / 10, n / 10);
    }
  }

  /** The file name determines the normalized country and the database length. */
  lemma NameInjective(c1: string, n1: nat, c2: string, n2: nat)
    requires UpperAlnum(c1) && UpperAlnum(c2)
    requires CacheName(c1, n1) == CacheName(c2, n2)
    ensures c1 == c2 && n1 == n2
  {
    var a, b := c1 + "-" + (Dec(n1) + ".txt"), c2 + "-" + (Dec(n2) + ".txt");
    assert a == CacheName(c1, n1)[9..] && b == CacheName(c2, n2)[9..];
    SameCode(c1, Dec(n1) + ".txt", c2, Dec(n2) + ".txt");
    assert Dec(n1) == (Dec(n1) + ".txt")[..|Dec(n1)|] && Dec(n2) == (Dec(n2) + ".txt")[..|Dec(n2)|];
    DecInjective(n1, n2);
  }

  lemma SameCode(c1: string, r1: string, c2: string, r2: string)
    requires UpperAlnum(c1) && UpperAlnum(c2)
    requires c1 + "-" + r1 == c2 + "-" + r2
    ensures c1 == c2 && r1 == r2
  {
    var a, b := c1 + "-" + r1, c2 + "-" + r2;
    assert a[|c1|] == '-' && b[|c2|] == '-';
    assert forall i :: 0 <= i < |c1| ==> a[i] == c1[i] && a[i] != '-';
    assert forall i :: 0 <= i < |c2| ==> b[i] == c2[i] && b[i] != '-';
    assert |c1| == |c2|;
    assert c1 == a[..|c1|] && c2 == b[..|c2|];
    assert r1 == a[|c1| + 1..] && r2 == b[|c2| + 1..];
  }

  lemma LastDotSnoc(s: string, c: char)
    ensures LastDot(s + [c]) == if c == '.' then Some(|s|) else LastDot(s)
  {
    assert (s + [c])[..|s|] == s;
  }

  lemma DotTxt(s: string)
    ensures LastDot(s + ".txt") == Some(|s|)
  {
    hide LastDot;
    var dotted := s + ['.'];
    assert s + ".txt" == dotted + ['t'] + ['x'] + ['t'];
    LastDotSnoc(s, '.');
    LastDotSnoc(dotted, 't');
    LastDotSnoc(dotted + ['t'], 'x');
    LastDotSnoc(dotted + ['t'] + ['x'], 't');
  }

  /** The temporary name only adds a suffix, so that it is never a cache name. */
  lemma TempIsSuffixed(code: string, length: nat)
    ensures TempName(CacheName(code, length)) == CacheName(code, length) + ".tmp"
  {
    hide LastDot;
    var stem := "chnroute-" + (code + "-" + Dec(length));
    assert CacheName(code, length) == stem + ".txt";
    DotTxt(stem);
    assert (stem + ".txt")[..|stem|] == stem;
    assert stem + "." + "txt.tmp" == stem + ".txt" + ".tmp";
  }

  lemma TempApart(c1: string, n1: nat, c2: string, n2: nat)
    ensures TempName(CacheName(c1, n1)) != CacheName(c2, n2)
  {
    TempIsSuffixed(c1, n1);
    var t, u := CacheName(c1, n1) + ".tmp", CacheName(c2, n2);
    assert t[|t| - 1] == 'p' && u[|u| - 1] == 't';
  }

  // ---------------------------------------------------------------------
  // Steps.
  // ---------------------------------------------------------------------

  /** Where the one call in progress stands: name settled and directory present, cache file found
      missing or empty, temporary file holding the first `done` characters, or all of them. */
  datatype Pc =
    | Idle
    | Called(code: string, d: nat)
    | Missed(code: string, d: nat)
    | Writing(code: string, d: nat, text: string, done: nat)

  /** A path handed back, and what the file held then. */
  datatype Answer = Answer(code: string, d: nat, name: string, text: string)

  datatype State = State(files: map<string, string>, pc: Pc, answers: seq<Answer>)

  /** `Stop` is a failing file operation or a crash. */
  datatype Event =
    | Call(country: string, d: nat)
    | Look
    | Build
    | Write(count: nat)
    | Rename
    | Stop

  const EMPTY: State := State(map[], Idle, [])

  function NameOf(dbs: seq<Database>, code: string, d: nat): string {
    CacheName(code, if d < |dbs| then dbs[d].length else 0)
  }

  predicate Hit(files: map<string, string>, name: string) {
    name in files && files[name] != ""
  }

  /** An empty normalized code, or a database that is not there, is an error at once. */
  function BeginCall(dbs: seq<Database>, s: State, country: string, d: nat): State {
    var code := NormalizeCountry(country);
    if !s.pc.Idle? || code == "" || d >= |dbs| then s else s.(pc := Called(code, d))
  }

  function LookUp(dbs: seq<Database>, s: State, code: string, d: nat): State {
    var name := NameOf(dbs, code, d);
    if Hit(s.files, name)
    then s.(pc := Idle, answers := s.answers + [Answer(code, d, name, s.files[name])])
    else s.(pc := Missed(code, d))
  }

  /** Extract, then create or truncate the temporary file. */
  function BeginWrite(dbs: seq<Database>, s: State, code: string, d: nat): State {
    if d >= |dbs| then s.(pc := Idle)
    else match CountryFile(dbs[d].items, code)
         case Err(_) => s.(pc := Idle)
         case Ok(text) =>
           s.(files := s.files[TempName(NameOf(dbs, code, d)) := ""], pc := Writing(code, d, text, 0))
  }

  function WriteSome(dbs: seq<Database>, s: State, count: nat): State
    requires s.pc.Writing?
  {
    var done := if s.pc.done + count > |s.pc.text| then |s.pc.text| else s.pc.done + count;
    s.(files := s.files[TempName(NameOf(dbs, s.pc.code, s.pc.d)) := s.pc.text[..done]], pc := s.pc.(done := done))
  }

  /** Only after the whole text is written. */
  function RenameTemp(dbs: seq<Database>, s: State): State
    requires s.pc.Writing?
  {
    var name := NameOf(dbs, s.pc.code, s.pc.d);
    var temp := TempName(name);
    if s.pc.done != |s.pc.text| || temp !in s.files then s
    else s.(files := (s.files - {temp})[name := s.files[temp]], pc := Idle,
            answers := s.answers + [Answer(s.pc.code, s.pc.d, name, s.files[temp])])
  }

  /** One atomic step; an event that is not enabled changes nothing. */
  function Step(dbs: seq<Database>, s: State, e: Event): State {
    match e
    case Call(country, d) => BeginCall(dbs, s, country, d)
    case Look => if s.pc.Called? then LookUp(dbs, s, s.pc.code, s.pc.d) else s
    case Build => if s.pc.Missed? then BeginWrite(dbs, s, s.pc.code, s.pc.d) else s
    case Write(count) => if s.pc.Writing? then WriteSome(dbs, s, count) else s
    case Rename => if s.pc.Writing? then RenameTemp(dbs, s) else s
    case Stop => s.(pc := Idle)
  }

  function Stepper(dbs: seq<Database>): (State, Event) -> State {
    (s, e) => Step(dbs, s, e)
  }

  function RunFrom(dbs: seq<Database>, s: State, events: seq<Event>): State {
    Fold(Stepper(dbs), s, events)
  }

  function Run(dbs: seq<Database>, events: seq<Event>): State {
    RunFrom(dbs, EMPTY, events)
  }

  // ---------------------------------------------------------------------
  // Invariant.
  // ---------------------------------------------------------------------

  ghost predicate Code(code: string) {
    UpperAlnum(code) && code != ""
  }

  /** `text` is the whole extraction for the code from a database of that length. */
  ghost predicate FullText(dbs: seq<Database>, code: string, length: nat, text: string) {
    exists d: nat :: d < |dbs| && dbs[d].length == length && CountryFile(dbs[d].items, code) == Ok(text)
  }

  /** Every file under a cache name is whole. */
  ghost predicate FilesOk(dbs: seq<Database>, files: map<string, string>) {
    forall code: string, length: nat :: Code(code) && CacheName(code, length) in files ==>
      FullText(dbs, code, length, files[CacheName(code, length)])
  }

  ghost predicate PcOk(dbs: seq<Database>, s: State) {
    match s.pc
    case Idle => true
    case Called(code, d) => Code(code) && d < |dbs|
    case Missed(code, d) => Code(code) && d < |dbs| && !Hit(s.files, NameOf(dbs, code, d))
    case Writing(code, d, text, done) =>
      && Code(code) && d < |dbs| && !Hit(s.files, NameOf(dbs, code, d))
      && done <= |text| && CountryFile(dbs[d].items, code) == Ok(text)
      && var temp := TempName(NameOf(dbs, code, d)); temp in s.files && s.files[temp] == text[..done]
  }

  ghost predicate AnswerOk(dbs: seq<Database>, a: Answer) {
    Code(a.code) && a.d < |dbs| && a.name == NameOf(dbs, a.code, a.d) && FullText(dbs, a.code, dbs[a.d].length, a.text)
  }

  ghost predicate AnswersOk(dbs: seq<Database>, s: State) {
    forall k: nat :: k < |s.answers| ==> AnswerOk(dbs, s.answers[k])
  }

  ghost predicate Inv(dbs: seq<Database>, s: State) {
    FilesOk(dbs, s.files) && PcOk(dbs, s) && AnswersOk(dbs, s)
  }

  /** Writing the temporary file leaves every cache file alone. */
  lemma TempKeepsFiles(dbs: seq<Database>, files: map<string, string>, code: string, d: nat, text: string)
    requires FilesOk(dbs, files)
    ensures FilesOk(dbs, files[TempName(NameOf(dbs, code, d)) := text])
    ensures TempName(NameOf(dbs, code, d)) != NameOf(dbs, code, d)
  {
    hide TempName, CacheName, FullText;
    var temp := TempName(NameOf(dbs, code, d));
    var next := files[temp := text];
    TempApart(code, if d < |dbs| then dbs[d].length else 0, code, if d < |dbs| then dbs[d].length else 0);
    forall c: string, n: nat | Code(c) && CacheName(c, n) in next
      ensures FullText(dbs, c, n, next[CacheName(c, n)])
    {
      TempApart(code, if d < |dbs| then dbs[d].length else 0, c, n);
      assert CacheName(c, n) in files;
    }
  }

  /** The rename replaces the file of its own key and no other. */
  lemma RenameKeepsFiles(
      dbs: seq<Database>, files: map<string, string>, code: string, d: nat, text: string, temp: string)
    requires FilesOk(dbs, files) && Code(code) && d < |dbs|
    requires CountryFile(dbs[d].items, code) == Ok(text)
    ensures FilesOk(dbs, (files - {temp})[NameOf(dbs, code, d) := text])
  {
    hide CacheName, CountryFile, UpperAlnum;
    var name := NameOf(dbs, code, d);
    var next := (files - {temp})[name := text];
    forall c: string, n: nat | Code(c) && CacheName(c, n) in next
      ensures FullText(dbs, c, n, next[CacheName(c, n)])
    {
      if CacheName(c, n) == name {
        NameInjective(c, n, code, dbs[d].length);
      } else {
        assert CacheName(c, n) in files;
      }
    }
  }

  lemma LookInv(dbs: seq<Database>, s: State)
    requires Inv(dbs, s) && s.pc.Called?
    ensures Inv(dbs, LookUp(dbs, s, s.pc.code, s.pc.d))
  {
    hide CacheName, CountryFile, UpperAlnum, FullText;
  }

  lemma BuildInv(dbs: seq<Database>, s: State)
    requires Inv(dbs, s) && s.pc.Missed?
    ensures Inv(dbs, BeginWrite(dbs, s, s.pc.code, s.pc.d))
  {
    hide CacheName, TempName, CountryFile, UpperAlnum, FullText;
    TempKeepsFiles(dbs, s.files, s.pc.code, s.pc.d, "");
  }

  lemma WriteInv(dbs: seq<Database>, s: State, count: nat)
    requires Inv(dbs, s) && s.pc.Writing?
    ensures Inv(dbs, WriteSome(dbs, s, count))
  {
    hide CacheName, TempName, CountryFile, UpperAlnum, FullText;
    var done := if s.pc.done + count > |s.pc.text| then |s.pc.text| else s.pc.done + count;
    TempKeepsFiles(dbs, s.files, s.pc.code, s.pc.d, s.pc.text[..done]);
  }

  lemma RenameInv(dbs: seq<Database>, s: State)
    requires Inv(dbs, s) && s.pc.Writing?
    ensures Inv(dbs, RenameTemp(dbs, s))
  {
    hide CacheName, TempName, CountryFile, UpperAlnum;
    if s.pc.done == |s.pc.text| {
      assert s.pc.text[..s.pc.done] == s.pc.text;
      RenameKeepsFiles(dbs, s.files, s.pc.code, s.pc.d, s.pc.text, TempName(NameOf(dbs, s.pc.code, s.pc.d)));
    }
  }

  lemma CallInv(dbs: seq<Database>, s: State, country: string, d: nat)
    requires Inv(dbs, s)
    ensures Inv(dbs, BeginCall(dbs, s, country, d))
  {
    hide CacheName, CountryFile, FullText;
    NormalizeSpec(country);
  }

  lemma {:induction false} StepInv(dbs: seq<Database>, s: State, e: Event)
    requires Inv(dbs, s)
    ensures Inv(dbs, Step(dbs, s, e))
  {
    hide FilesOk, AnswersOk, LookUp, BeginWrite, WriteSome, RenameTemp, BeginCall, CacheName, TempName, CountryFile;
    match e
    case Call(country, d) => CallInv(dbs, s, country, d);
    case Look => if s.pc.Called? { LookInv(dbs, s); }
    case Build => if s.pc.Missed? { BuildInv(dbs, s); }
    case Write(count) => if s.pc.Writing? { WriteInv(dbs, s, count); }
    case Rename => if s.pc.Writing? { RenameInv(dbs, s); }
    case Stop => StopInv(dbs, s);
  }

  lemma StopInv(dbs: seq<Database>, s: State)
    requires Inv(dbs, s)
    ensures Inv(dbs, s.(pc := Idle))
  {
    hide FilesOk, AnswerOk;
  }

  lemma {:induction false} RunInv(dbs: seq<Database>, s: State, events: seq<Event>)
    requires Inv(dbs, s)
    ensures Inv(dbs, RunFrom(dbs, s, events))
    decreases |events|
  {
    hide Inv, Step;
    if events != [] {
      StepInv(dbs, s, events[0]);
      RunInv(dbs, Step(dbs, s, events[0]), events[1..]);
    }
  }

  lemma ReachableInv(dbs: seq<Database>, events: seq<Event>)
    ensures Inv(dbs, Run(dbs, events))
  {
    EmptyInv(dbs);
    RunInv(dbs, EMPTY, events);
  }

  lemma EmptyInv(dbs: seq<Database>)
    ensures Inv(dbs, EMPTY)
  {
  }

  // ---------------------------------------------------------------------
  // What holds of every run.
  // ---------------------------------------------------------------------

  /** Whatever failed or crashed, a file under a cache name is never empty nor cut short: it is the
      whole extraction for its country from a database of its length. */
  lemma CacheFilesWhole(dbs: seq<Database>, events: seq<Event>, code: string, length: nat)
    requires UpperAlnum(code) && code != "" && CacheName(code, length) in Run(dbs, events).files
    ensures var text := Run(dbs, events).files[CacheName(code, length)];
            && text != ""
            && exists d: nat :: d < |dbs| && dbs[d].length == length && CountryFile(dbs[d].items, code) == Ok(text)
  {
    ReachableInv(dbs, events);
    hide CacheName, TempName, Fold;
    var text := Run(dbs, events).files[CacheName(code, length)];
    assert FullText(dbs, code, length, text);
    var d: nat :| d < |dbs| && dbs[d].length == length && CountryFile(dbs[d].items, code) == Ok(text);
    FilesHaveText(dbs[d].items, code);
  }

  lemma FilesHaveText(items: seq<Item>, code: string)
    ensures CountryFile(items, code).Ok? ==> CountryFile(items, code).value != ""
  {
    hide CollectRanges, CountLine, JoinLines;
  }

  /** The file under a cache name holds the text. */
  ghost predicate Holding(s: State, code: string, length: nat, text: string) {
    text != "" && CacheName(code, length) in s.files && s.files[CacheName(code, length)] == text
  }

  lemma StepHolds(dbs: seq<Database>, s: State, e: Event, code: string, length: nat, text: string)
    requires Inv(dbs, s) && Code(code) && Holding(s, code, length, text)
    ensures Holding(Step(dbs, s, e), code, length, text)
  {
    hide CacheName, TempName, CountryFile, NormalizeCountry, UpperAlnum, FilesOk, AnswersOk, FullText;
    if s.pc.Missed? || s.pc.Writing? {
      TempApart(s.pc.code, dbs[s.pc.d].length, code, length);
      assert NameOf(dbs, s.pc.code, s.pc.d) != CacheName(code, length);
    }
  }

  lemma {:induction false} RunHolds(
      dbs: seq<Database>, s: State, more: seq<Event>, code: string, length: nat, text: string)
    requires Inv(dbs, s) && Code(code) && Holding(s, code, length, text)
    ensures Holding(RunFrom(dbs, s, more), code, length, text)
    decreases |more|
  {
    hide Inv, Step, Holding, Code;
    if more != [] {
      StepInv(dbs, s, more[0]);
      StepHolds(dbs, s, more[0], code, length, text);
      RunHolds(dbs, Step(dbs, s, more[0]), more[1..], code, length, text);
    }
  }

  /** Once written a cache file never changes, so that a path handed out earlier stays good. */
  lemma CacheFilesStay(dbs: seq<Database>, events: seq<Event>, more: seq<Event>, code: string, length: nat)
    requires UpperAlnum(code) && code != "" && CacheName(code, length) in Run(dbs, events).files
    ensures CacheName(code, length) in Run(dbs, events + more).files
    ensures Run(dbs, events + more).files[CacheName(code, length)] == Run(dbs, events).files[CacheName(code, length)]
  {
    ReachableInv(dbs, events);
    CacheFilesWhole(dbs, events, code, length);
    FoldConcat(Stepper(dbs), EMPTY, events, more);
    hide Inv, Fold;
    RunHolds(dbs, Run(dbs, events), more, code, length, Run(dbs, events).files[CacheName(code, length)]);
  }

  /** The file handed back is what a fresh extraction from the database of the call would give. */
  ghost predicate Fresh(dbs: seq<Database>, a: Answer) {
    a.d < |dbs| && CountryFile(dbs[a.d].items, a.code) == Ok(a.text)
  }

  ghost predicate AllFresh(dbs: seq<Database>, s: State) {
    forall k: nat :: k < |s.answers| ==> Fresh(dbs, s.answers[k])
  }

  /** Releases of one length agree on every country that one of them knows. */
  ghost predicate LengthIdentifies(dbs: seq<Database>) {
    forall i: nat, j: nat, code: string ::
      i < |dbs| && j < |dbs| && dbs[i].length == dbs[j].length && Code(code) && CountryFile(dbs[i].items, code).Ok? ==>
        CountryFile(dbs[j].items, code) == CountryFile(dbs[i].items, code)
  }

  /** An uninterrupted call on an empty directory writes the file and hands it back. */
  lemma FirstCall(dbs: seq<Database>, code: string, d: nat, text: string)
    requires Code(code) && d < |dbs| && CountryFile(dbs[d].items, code) == Ok(text)
    ensures var name := CacheName(code, dbs[d].length);
            Run(dbs, [Call(code, d), Look, Build, Write(|text|)] + [Rename]) ==
            State(map[name := text], Idle, [Answer(code, d, name, text)])
  {
    FoldSnoc(Stepper(dbs), EMPTY, [Call(code, d), Look, Build, Write(|text|)], Rename);
    Fold4(Stepper(dbs), EMPTY, Call(code, d), Look, Build, Write(|text|));
    FirstMissed(dbs, code, d);
    hide Fold, Step, CountryFile, CacheName, TempName, Code;
    FirstWritten(dbs, code, d, text);
  }

  lemma FirstMissed(dbs: seq<Database>, code: string, d: nat)
    requires Code(code) && d < |dbs|
    ensures Step(dbs, Step(dbs, EMPTY, Call(code, d)), Look) == State(map[], Missed(code, d), [])
  {
    NormalizeSpec(code);
  }

  lemma FirstWritten(dbs: seq<Database>, code: string, d: nat, text: string)
    requires d < |dbs| && CountryFile(dbs[d].items, code) == Ok(text)
    ensures var name := CacheName(code, dbs[d].length);
            Step(dbs, Step(dbs, Step(dbs, State(map[], Missed(code, d), []), Build), Write(|text|)), Rename) ==
            State(map[name := text], Idle, [Answer(code, d, name, text)])
  {
    hide CountryFile, CacheName, TempName;
    PartWritten(dbs, State(map[], Missed(code, d), []), code, d, text, |text|);
    assert text[..|text|] == text;
    FirstRenamed(dbs, code, d, text);
  }

  lemma PartWritten(dbs: seq<Database>, s: State, code: string, d: nat, text: string, count: nat)
    requires s.pc == Missed(code, d) && d < |dbs| && CountryFile(dbs[d].items, code) == Ok(text) && count <= |text|
    ensures Step(dbs, Step(dbs, s, Build), Write(count)) ==
            s.(files := s.files[TempName(NameOf(dbs, code, d)) := text[..count]], pc := Writing(code, d, text, count))
  {
    hide CountryFile, NameOf, TempName;
    var temp := TempName(NameOf(dbs, code, d));
    assert s.files[temp := ""][temp := text[..count]] == s.files[temp := text[..count]];
  }

  lemma FirstRenamed(dbs: seq<Database>, code: string, d: nat, text: string)
    ensures var name := NameOf(dbs, code, d);
            Step(dbs, State(map[TempName(name) := text], Writing(code, d, text, |text|), []), Rename) ==
            State(map[name := text], Idle, [Answer(code, d, name, text)])
  {
    hide NameOf, TempName;
    var name := NameOf(dbs, code, d);
    assert (map[TempName(name) := text] - {TempName(name)})[name := text] == map[name := text];
  }

  /** A second call that finds the file hands it back whatever the database now says. */
  lemma SecondCall(dbs: seq<Database>, s: State, code: string, d: nat)
    requires Code(code) && d < |dbs| && s.pc.Idle? && Hit(s.files, NameOf(dbs, code, d))
    ensures RunFrom(dbs, s, [Call(code, d)] + [Look]) ==
            s.(answers := s.answers + [Answer(code, d, NameOf(dbs, code, d), s.files[NameOf(dbs, code, d)])])
  {
    var f := Stepper(dbs);
    FoldSnoc(f, s, [Call(code, d)], Look);
    FoldSnoc(f, s, [], Call(code, d));
    assert [] + [Call(code, d)] == [Call(code, d)];
    NormalizeSpec(code);
  }

  /** A call with one release, then a call with another of the same length. */
  function TwoCalls(code: string, i: nat, j: nat, count: nat): seq<Event> {
    [Call(code, i), Look, Build, Write(count)] + [Rename] + ([Call(code, j)] + [Look])
  }

  lemma BothCalls(dbs: seq<Database>, i: nat, j: nat, code: string, text: string)
    requires i < |dbs| && j < |dbs| && dbs[i].length == dbs[j].length && Code(code)
    requires CountryFile(dbs[i].items, code) == Ok(text) && text != ""
    ensures Run(dbs, TwoCalls(code, i, j, |text|)).answers ==
            [Answer(code, i, NameOf(dbs, code, i), text), Answer(code, j, NameOf(dbs, code, j), text)]
  {
    FirstCall(dbs, code, i, text);
    hide Fold, CountryFile, CacheName, Code;
    var first := [Call(code, i), Look, Build, Write(|text|)] + [Rename];
    FoldConcat(Stepper(dbs), EMPTY, first, [Call(code, j)] + [Look]);
    SecondCall(dbs, Run(dbs, first), code, j);
  }

  lemma StaleServed(dbs: seq<Database>, i: nat, j: nat, code: string)
    requires i < |dbs| && j < |dbs| && dbs[i].length == dbs[j].length && Code(code)
    requires CountryFile(dbs[i].items, code).Ok? && CountryFile(dbs[j].items, code) != CountryFile(dbs[i].items, code)
    ensures exists events: seq<Event> :: !AllFresh(dbs, Run(dbs, events))
  {
    var text := CountryFile(dbs[i].items, code).value;
    FilesHaveText(dbs[i].items, code);
    BothCalls(dbs, i, j, code, text);
    hide Run, TwoCalls, CountryFile, CacheName, Code;
    var end := Run(dbs, TwoCalls(code, i, j, |text|));
    assert !Fresh(dbs, end.answers[1]);
  }

  /** Over all runs every path handed back holds what a fresh extraction would give, exactly when
      the length of a release identifies what it says of each country. */
  lemma FreshIff(dbs: seq<Database>)
    ensures (forall events: seq<Event> :: AllFresh(dbs, Run(dbs, events))) <==> LengthIdentifies(dbs)
  {
    hide Fold, CountryFile, CacheName, TempName, UpperAlnum, Step, FilesOk, PcOk;
    if LengthIdentifies(dbs) {
      forall events: seq<Event>
        ensures AllFresh(dbs, Run(dbs, events))
      {
        ReachableInv(dbs, events);
        IdentifiedFresh(dbs, Run(dbs, events));
      }
    } else {
      var i: nat, j: nat, code: string :|
        i < |dbs| && j < |dbs| && dbs[i].length == dbs[j].length && Code(code) && CountryFile(dbs[i].items, code).Ok?
        && CountryFile(dbs[j].items, code) != CountryFile(dbs[i].items, code);
      StaleServed(dbs, i, j, code);
    }
  }

  lemma IdentifiedFresh(dbs: seq<Database>, s: State)
    requires LengthIdentifies(dbs) && AnswersOk(dbs, s)
    ensures AllFresh(dbs, s)
  {
    hide CountryFile, CacheName, UpperAlnum;
    forall k: nat | k < |s.answers|
      ensures Fresh(dbs, s.answers[k])
    {
      var a := s.answers[k];
      assert AnswerOk(dbs, a);
      var d: nat :| d < |dbs| && dbs[d].length == dbs[a.d].length && CountryFile(dbs[d].items, a.code) == Ok(a.text);
    }
  }

  // ---------------------------------------------------------------------
  // The call as the code makes it.
  // ---------------------------------------------------------------------

  /** What the disk does during one call: whether the directory is there or can be made, how many
      characters a write takes before it fails (none at all if the file cannot be created), and
      whether the rename succeeds. */
  datatype Disk = Disk(directory: bool, accepts: Option<nat>, renames: bool)

  predicate Stores(disk: Disk, text: string) {
    disk.accepts.Some? && disk.accepts.value >= |text| && disk.renames
  }

  /** The temporary file after a write that may fail. */
  function AfterWrite(files: map<string, string>, temp: string, text: string, disk: Disk): map<string, string> {
    match disk.accepts
    case None => files
    case Some(n) => files[temp := text[..Min(n, |text|)]]
  }

  lemma WriteSteps(dbs: seq<Database>, history: seq<Event>, code: string, d: nat, text: string, count: nat)
    requires d < |dbs| && CountryFile(dbs[d].items, code) == Ok(text) && count <= |text|
    ensures var s, temp := Run(dbs, history), TempName(NameOf(dbs, code, d));
            s.pc == Missed(code, d) ==>
              Run(dbs, history + [Build] + [Write(count)]) ==
              s.(files := s.files[temp := text[..count]], pc := Writing(code, d, text, count))
  {
    hide Fold, Step, CountryFile, TempName, CacheName;
    FoldSnoc(Stepper(dbs), EMPTY, history, Build);
    FoldSnoc(Stepper(dbs), EMPTY, history + [Build], Write(count));
    if Run(dbs, history).pc == Missed(code, d) { PartWritten(dbs, Run(dbs, history), code, d, text, count); }
  }

  /** The cache directory, and one call, whatever the disk does. `history` is the run of steps
      the calls amount to, so that what is proved of all runs holds of the object. */
  class CacheDirectory {
    const dbs: seq<Database>
    var files: map<string, string>
    ghost var history: seq<Event>

    ghost predicate Between(pc: Pc)
      reads this
    {
      var s := Run(dbs, history);
      s.files == files && s.pc == pc
    }

    ghost predicate Valid()
      reads this
    {
      Between(Idle)
    }

    constructor (dbs: seq<Database>)
      ensures Valid() && this.dbs == dbs && history == [] && files == map[]
    {
      this.dbs := dbs;
      files, history := map[], [];
    }

    /** `write_atomic`: the new text is in place, or an error is returned and at most the temporary
        file has changed. */
    method WriteAtomic(name: string, text: string, code: string, d: nat, disk: Disk) returns (r: Result<string>)
      requires Between(Missed(code, d)) && d < |dbs| && name == NameOf(dbs, code, d)
      requires CountryFile(dbs[d].items, code) == Ok(text)
      modifies this
      ensures Valid() && old(history) <= history
      ensures if Stores(disk, text)
              then r == Ok(name) && files == (old(files) - {TempName(name)})[name := text]
              else r.Err? && files == AfterWrite(old(files), TempName(name), text, disk)
    {
      hide Fold, CountryFile, TempName, CacheName;
      var temp := TempName(name);
      if disk.accepts.None? {
        FoldSnoc(Stepper(dbs), EMPTY, history, Event.Stop);
        history := history + [Event.Stop];
        return Err("write " + temp);
      }
      var written := Min(disk.accepts.value, |text|);
      WriteSteps(dbs, history, code, d, text, written);
      ghost var wrote := history + [Build] + [Write(written)];
      files := files[temp := text[..written]];
      if written < |text| || !disk.renames {
        FoldSnoc(Stepper(dbs), EMPTY, wrote, Event.Stop);
        history := wrote + [Event.Stop];
        return Err(if written < |text| then "write " + temp else "rename into " + name);
      }
      FoldSnoc(Stepper(dbs), EMPTY, wrote, Rename);
      history := wrote + [Rename];
      assert text[..written] == text && files - {temp} == old(files) - {temp};
      files := (files - {temp})[name := files[temp]];
      return Ok(name);
    }

    /** `ensure_country_file` with release `d`; a release that is not there cannot be read. */
    method EnsureCountryFile(country: string, d: nat, disk: Disk) returns (r: Result<string>)
      requires Valid()
      modifies this
      ensures Valid() && old(history) <= history
      ensures NormalizeCountry(country) == "" || d >= |dbs| || !disk.directory ==> r.Err? && files == old(files)
      ensures NormalizeCountry(country) != "" && d < |dbs| && disk.directory ==>
                var code := NormalizeCountry(country);
                var name, extracted := CacheName(code, dbs[d].length), CountryFile(dbs[d].items, code);
                if name in old(files) && old(files)[name] != "" then r == Ok(name) && files == old(files)
                else if extracted.Err? then r == Err(extracted.message) && files == old(files)
                else if Stores(disk, extracted.value)
                then r == Ok(name) && files == (old(files) - {TempName(name)})[name := extracted.value]
                else r.Err? && files == AfterWrite(old(files), TempName(name), extracted.value, disk)
    {
      hide Fold, CountryFile, TempName, CacheName, NormalizeCountry, Stores, AfterWrite;
      var code := NormalizeCountry(country);
      if code == "" { return Err("country code is empty / not alphanumeric"); }
      if d >= |dbs| { return Err("stat mmdb"); }
      if !disk.directory { return Err("create cache dir"); }
      FoldSnoc(Stepper(dbs), EMPTY, history, Call(country, d));
      FoldSnoc(Stepper(dbs), EMPTY, history + [Call(country, d)], Look);
      history := history + [Call(country, d)] + [Look];
      var name := CacheName(code, dbs[d].length);
      if Hit(files, name) { return Ok(name); }
      var built := BuildCountryCidrs(dbs[d].items, code);
      if built.Err? {
        FoldSnoc(Stepper(dbs), EMPTY, history, Build);
        history := history + [Build];
        return Err(built.message);
      }
      r := WriteAtomic(name, built.value, code, d, disk);
    }
  }
}
