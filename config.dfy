/** configReader: the tab-separated config file naming the external
    programs. Each line that is neither a comment nor blank gives a program
    name and its path; a later line for the same name wins. A name outside
    the six known programs is an error, and a known program the file does
    not name is run from the search path under its own name (consensus as
    'consensus.py'). */
module ConfigReading {
  import opened Wrappers
  import opened Text
  import opened Dicts

  /** The programs the pipeline may call. */
  const Possible: set<string> := {"poa", "minimap2", "water", "consensus", "racon", "blat"}

  /** A data line without a tab (`line[1]` is an IndexError), with the
      index of the line; a name outside Possible. */
  datatype ConfigError = MissingTab(lineIndex: nat) | UnknownProgram(name: string)

  /** Comment lines and lines with nothing but whitespace are skipped. */
  predicate Skipped(line: string) {
    StartsWith(line, "#") || Split(RStrip(line)) == []
  }

  /** The fields of a data line. */
  function Fields(line: string): seq<string> {
    SplitOn(RStrip(line), '\t')
  }

  /** The dict `progs` after the file's loop, or the line that fails. */
  function ConfigEntries(lines: seq<string>): Result<Dict, ConfigError> {
    if lines == [] then Ok([])
    else
      match ConfigEntries(lines[..|lines| - 1])
      case Err(e) => Err(e)
      case Ok(progs) =>
        var line := lines[|lines| - 1];
        if Skipped(line) then Ok(progs)
        else
          var fields := Fields(line);
          if |fields| < 2 then Err(MissingTab(|lines| - 1))
          else Ok(Assign(progs, fields[0], fields[1]))
  }

  /** The first name, in the dict's order, that is not a known program. */
  function FirstUnknown(d: Dict): Option<string> {
    if d == [] then None
    else
      var init := d[..|d| - 1];
      match FirstUnknown(init)
      case Some(k) => Some(k)
      case None => if d[|d| - 1].0 !in Possible then Some(d[|d| - 1].0) else None
  }

  /** The path used for a program the file does not name. */
  function DefaultPath(name: string): string {
    if name == "consensus" then "consensus.py" else name
  }

  /** The path a known program ends up with: the file's, or the default. */
  function ProgramPath(file: Dict, name: string): string {
    match Lookup(file, name)
    case Some(path) => path
    case None => DefaultPath(name)
  }

  /** Every known program has its path, from the file or the default,
      except those still missing; nothing else has a path. */
  ghost predicate Resolved(progs: Dict, file: Dict, missing: set<string>) {
    forall k :: Lookup(progs, k) == (if k in Possible && k !in missing then Some(ProgramPath(file, k)) else None)
  }

  /** configReader(configIn) over the file's lines. The defaults are added
      in an unspecified order (Python iterates over a set), so the method
      picks each missing program nondeterministically. */
  method ConfigReader(lines: seq<string>) returns (r: Result<Dict, ConfigError>)
    ensures ConfigEntries(lines).Err? ==> r == Err(ConfigEntries(lines).error)
    ensures ConfigEntries(lines).Ok? && FirstUnknown(ConfigEntries(lines).value).Some? ==>
      r == Err(UnknownProgram(FirstUnknown(ConfigEntries(lines).value).value))
    ensures r.Ok? <==> ConfigEntries(lines).Ok? && FirstUnknown(ConfigEntries(lines).value).None?
    ensures r.Ok? ==> UniqueKeys(r.value)
    ensures r.Ok? ==> ConfigEntries(lines).value <= r.value
    ensures r.Ok? ==> Resolved(r.value, ConfigEntries(lines).value, {})
  {
    var entries := ReadEntries(lines);
    if entries.Err? {
      return Err(entries.error);
    }
    EntriesUnique(lines);
    var unknown, inConfig := CheckNames(entries.value);
    if unknown.Some? {
      return Err(UnknownProgram(unknown.value));
    }
    r := AddDefaults(entries.value, inConfig);
  }

  /** The loop over the file's lines. */
  method ReadEntries(lines: seq<string>) returns (r: Result<Dict, ConfigError>)
    ensures r == ConfigEntries(lines)
  {
    var progs: Dict := [];
    var i := 0;
    while i < |lines|
      invariant 0 <= i <= |lines|
      invariant ConfigEntries(lines[..i]) == Ok(progs)
    {
      var skip, fields := ReadLine(lines[i]);
      EntriesStep(lines, i, progs);
      if !skip {
        if |fields| < 2 {
          EntriesErrorSticks(lines, i + 1);
          return Err(MissingTab(i));
        }
        progs := Assign(progs, fields[0], fields[1]);
      }
      i := i + 1;
    }
    assert lines[..i] == lines;
    return Ok(progs);
  }

  /** One line: a comment or blank line, or the fields of a data line. */
  method ReadLine(line: string) returns (skip: bool, fields: seq<string>)
    ensures skip == Skipped(line)
    ensures !skip ==> fields == Fields(line)
  {
    skip := StartsWith(line, "#") || Split(RStrip(line)) == [];
    fields := [];
    if !skip {
      fields := SplitOn(RStrip(line), '\t');
    }
  }

  /** The loop over the file's names: the first unknown one, or the set of
      names when all are known. */
  method CheckNames(progs: Dict) returns (unknown: Option<string>, inConfig: set<string>)
    ensures unknown == FirstUnknown(progs)
    ensures unknown.None? ==> forall k :: k in inConfig <==> k in Keys(progs)
  {
    inConfig := {};
    var j := 0;
    while j < |progs|
      invariant 0 <= j <= |progs|
      invariant FirstUnknown(progs[..j]) == None
      invariant forall k :: k in inConfig <==> k in Keys(progs[..j])
    {
      var key := progs[j].0;
      assert progs[..j + 1] == progs[..j] + [progs[j]];
      assert progs[..j + 1][..j] == progs[..j];
      assert Keys(progs[..j + 1]) == Keys(progs[..j]) + [key];
      inConfig := inConfig + {key};
      if key !in Possible {
        UnknownIsFirst(progs, j);
        return Some(key), inConfig;
      }
      j := j + 1;
    }
    assert progs[..j] == progs;
    return None, inConfig;
  }

  /** The file's loop after one more line. */
  lemma EntriesStep(lines: seq<string>, i: nat, progs: Dict)
    requires i < |lines| && ConfigEntries(lines[..i]) == Ok(progs)
    ensures ConfigEntries(lines[..i + 1]) ==
      if Skipped(lines[i]) then Ok(progs)
      else if |Fields(lines[i])| < 2 then Err(MissingTab(i))
      else Ok(Assign(progs, Fields(lines[i])[0], Fields(lines[i])[1]))
  {
    assert lines[..i + 1][..i] == lines[..i];
  }

  /** The loop over the programs missing from the file: the file's
      entries stay first, and the defaults follow. */
  method AddDefaults(file: Dict, inConfig: set<string>) returns (r: Result<Dict, ConfigError>)
    requires UniqueKeys(file) && FirstUnknown(file).None?
    requires forall k :: k in inConfig <==> k in Keys(file)
    ensures r.Ok? && UniqueKeys(r.value) && file <= r.value
    ensures Resolved(r.value, file, {})
  {
    var progs := file;
    var missing := Possible - inConfig;
    InitiallyResolved(file, inConfig);
    while missing != {}
      invariant missing <= Possible
      invariant UniqueKeys(progs) && file <= progs
      invariant Resolved(progs, file, missing)
      decreases |missing|
    {
      var m :| m in missing;
      var path;
      if m == "consensus" {
        path := "consensus.py";
      } else {
        path := m;
      }
      DefaultStep(progs, file, missing, m);
      progs := Assign(progs, m, path);
      missing := missing - {m};
    }
    return Ok(progs);
  }

  /** Before the defaults, the file's own names are resolved and the rest
      of the known programs are missing. */
  lemma InitiallyResolved(file: Dict, inConfig: set<string>)
    requires FirstUnknown(file).None?
    requires forall k :: k in inConfig <==> k in Keys(file)
    ensures Resolved(file, file, Possible - inConfig)
  {
    FirstUnknownSound(file);
    forall k ensures Lookup(file, k) ==
      (if k in Possible && k !in Possible - inConfig then Some(ProgramPath(file, k)) else None)
    {
      LookupIn(file, k);
    }
  }

  /** Adding the default for one missing program appends it and resolves
      it. */
  lemma DefaultStep(progs: Dict, file: Dict, missing: set<string>, m: string)
    requires m in missing && missing <= Possible
    requires UniqueKeys(progs) && file <= progs
    requires Resolved(progs, file, missing)
    ensures Assign(progs, m, DefaultPath(m)) == progs + [(m, DefaultPath(m))]
    ensures UniqueKeys(Assign(progs, m, DefaultPath(m))) && file <= Assign(progs, m, DefaultPath(m))
    ensures Resolved(Assign(progs, m, DefaultPath(m)), file, missing - {m})
  {
    var path := DefaultPath(m);
    assert Lookup(progs, m) == None;
    LookupIn(progs, m);
    assert m !in Keys(file) by {
      forall i | 0 <= i < |file| ensures Keys(file)[i] == Keys(progs)[i] {
        assert file[i] == progs[i];
      }
    }
    LookupIn(file, m);
    AssignNew(progs, m, path);
    AssignUnique(progs, m, path);
  }

  /** Once a line has failed, the whole file fails with that error. */
  lemma {:induction false} EntriesErrorSticks(lines: seq<string>, n: nat)
    requires n <= |lines| && ConfigEntries(lines[..n]).Err?
    ensures ConfigEntries(lines) == ConfigEntries(lines[..n])
    decreases |lines| - n
  {
    if n < |lines| {
      assert lines[..n + 1][..n] == lines[..n];
      EntriesErrorSticks(lines, n + 1);
    } else {
      assert lines[..n] == lines;
    }
  }

  /** The file's names are distinct in the dict. */
  lemma {:induction false} EntriesUnique(lines: seq<string>)
    requires ConfigEntries(lines).Ok?
    ensures UniqueKeys(ConfigEntries(lines).value)
  {
    if lines != [] {
      var init := lines[..|lines| - 1];
      EntriesUnique(init);
      var line := lines[|lines| - 1];
      if !Skipped(line) {
        AssignUnique(ConfigEntries(init).value, Fields(line)[0], Fields(line)[1]);
      }
    }
  }

  /** When the names before position j are known and the one at j is not,
      it is the first unknown one. */
  lemma UnknownIsFirst(d: Dict, j: nat)
    requires j < |d| && FirstUnknown(d[..j]) == None && d[j].0 !in Possible
    ensures FirstUnknown(d) == Some(d[j].0)
  {
    var p := d[..j + 1];
    assert p[..j] == d[..j];
    assert p[j] == d[j];
    assert FirstUnknown(p) == Some(d[j].0);
    FirstUnknownPrefix(d, j + 1);
  }

  /** What FirstUnknown finds: a name of the dict outside Possible, and
      when it finds none every name is known. */
  lemma {:induction false} FirstUnknownSound(d: Dict)
    ensures FirstUnknown(d).Some? ==> FirstUnknown(d).value in Keys(d) && FirstUnknown(d).value !in Possible
    ensures FirstUnknown(d).None? ==> forall k :: k in Keys(d) ==> k in Possible
  {
    if d != [] {
      var init := d[..|d| - 1];
      assert Keys(d) == Keys(init) + [d[|d| - 1].0];
      FirstUnknownSound(init);
    }
  }

  /** An unknown name in a prefix is the first of the whole dict. */
  lemma {:induction false} FirstUnknownPrefix(d: Dict, n: nat)
    requires n <= |d| && FirstUnknown(d[..n]).Some?
    ensures FirstUnknown(d) == FirstUnknown(d[..n])
    decreases |d| - n
  {
    if n < |d| {
      assert d[..n + 1][..n] == d[..n];
      FirstUnknownPrefix(d, n + 1);
    } else {
      assert d[..n] == d;
    }
  }

  // ---------------------------------------------------------------------
  // Properties

  /** A file with only comments and blank lines runs every program from
      the search path: each under its own name, consensus as
      'consensus.py'. */
  lemma EmptyConfig(lines: seq<string>)
    requires forall i :: 0 <= i < |lines| ==> Skipped(lines[i])
    ensures ConfigEntries(lines) == Ok([])
    ensures forall k :: ProgramPath([], k) == DefaultPath(k)
    ensures ProgramPath([], "consensus") == "consensus.py" && ProgramPath([], "racon") == "racon"
  {
    if lines != [] {
      EmptyConfig(lines[..|lines| - 1]);
    }
  }

  /** The error is raised exactly when the file names a program outside
      the six known ones. */
  lemma UnknownIff(file: Dict)
    ensures FirstUnknown(file).Some? <==> exists k :: k in Keys(file) && k !in Possible
  {
    FirstUnknownSound(file);
  }

  /** Splitting at the one tab of `a + '\t' + b`. */
  lemma SplitOnTab(a: string, b: string)
    requires '\t' !in a && '\t' !in b
    ensures SplitOn(a + "\t" + b, '\t') == [a, b]
  {
    var s := a + "\t" + b;
    assert '\t' in s by { assert s[|a|] == '\t'; }
    var i := IndexOf(s, '\t');
    assert s[..i] == a;
    assert s[i + 1..] == b;
  }

  /** A line the file would hold for a program and its path. */
  function ConfigLine(name: string, path: string): string {
    name + "\t" + path
  }

  /** A name and path that read back unchanged: the name a non-empty word
      not starting with '#', the path without tabs and not ending in
      whitespace. */
  predicate Writable(name: string, path: string) {
    name != [] && NoSpace(name) && name[0] != '#'
    && path != [] && '\t' !in path && !IsSpace(path[|path| - 1])
  }

  /** A data line gives back its name and path. */
  lemma ConfigLineFields(name: string, path: string)
    requires Writable(name, path)
    ensures !Skipped(ConfigLine(name, path))
    ensures Fields(ConfigLine(name, path)) == [name, path]
  {
    var line := ConfigLine(name, path);
    assert RStrip(line) == line;
    assert !AllSpace(line) by { assert !IsSpace(line[0]); }
    assert '\t' !in name by { assert IsSpace('\t'); }
    SplitOnTab(name, path);
  }

  /** One more data line assigns its name. */
  lemma EntriesAppend(lines: seq<string>, line: string)
    requires ConfigEntries(lines).Ok? && !Skipped(line) && |Fields(line)| >= 2
    ensures ConfigEntries(lines + [line]) ==
      Ok(Assign(ConfigEntries(lines).value, Fields(line)[0], Fields(line)[1]))
  {
    assert (lines + [line])[..|lines|] == lines;
  }

  /** The lines of a config file holding the entries. */
  function Render(d: Dict): seq<string> {
    if d == [] then [] else Render(d[..|d| - 1]) + [ConfigLine(d[|d| - 1].0, d[|d| - 1].1)]
  }

  /** Written one entry per line, entries with distinct names come back as
      the same dict, in the same order. */
  lemma {:induction false} ConfigRoundTrip(d: Dict)
    requires UniqueKeys(d)
    requires forall i :: 0 <= i < |d| ==> Writable(d[i].0, d[i].1)
    ensures ConfigEntries(Render(d)) == Ok(d)
  {
    if d != [] {
      var init := d[..|d| - 1];
      var last := d[|d| - 1];
      PrefixFacts(d);
      ConfigRoundTrip(init);
      RoundTripStep(init, last.0, last.1);
      assert d == init + [last];
    }
  }

  /** One more entry with a new name reads back after the others. */
  lemma RoundTripStep(init: Dict, name: string, path: string)
    requires ConfigEntries(Render(init)) == Ok(init)
    requires Writable(name, path) && name !in Keys(init)
    ensures ConfigEntries(Render(init + [(name, path)])) == Ok(init + [(name, path)])
  {
    var d := init + [(name, path)];
    var line := ConfigLine(name, path);
    ConfigLineFields(name, path);
    EntriesAppend(Render(init), line);
    assert d[..|d| - 1] == init;
    assert Render(d) == Render(init) + [line];
    AssignNew(init, name, path);
  }

  /** Dropping the last entry keeps the names distinct and the entries
      writable, and the last name is not among the others. */
  lemma PrefixFacts(d: Dict)
    requires d != [] && UniqueKeys(d)
    requires forall i :: 0 <= i < |d| ==> Writable(d[i].0, d[i].1)
    ensures var init := d[..|d| - 1];
      && UniqueKeys(init)
      && (forall i :: 0 <= i < |init| ==> Writable(init[i].0, init[i].1))
      && d[|d| - 1].0 !in Keys(init)
  {
    var init := d[..|d| - 1];
    var last := d[|d| - 1];
    assert UniqueKeys(init) by {
      forall i, j | 0 <= i < j < |init| ensures init[i].0 != init[j].0 {
        assert init[i] == d[i] && init[j] == d[j];
      }
    }
    assert forall i :: 0 <= i < |init| ==> init[i] == d[i];
    assert last.0 !in Keys(init) by {
      forall i | 0 <= i < |init| ensures Keys(init)[i] != last.0 {
        assert init[i] == d[i];
      }
    }
  }
}
