/** The .env helpers of the generated app: reading KEY=VALUE lines, exporting non-empty
    values to the environment, and the merge-only write of API keys. */
module EnvFile {
  import opened Text
  import opened Json
  import opened Host

  /** A Python dict from str to str: its keys in insertion order, and their values. */
  datatype Dict = Dict(keys: seq<string>, vals: map<string, string>)

  /** Keys distinct, and exactly the keys of the map. */
  predicate Valid(d: Dict) {
    && (forall i, j :: 0 <= i < j < |d.keys| ==> d.keys[i] != d.keys[j])
    && (forall k :: k in d.vals ==> k in d.keys)
    && (forall i :: 0 <= i < |d.keys| ==> d.keys[i] in d.vals)
  }

  /** In a sequence of distinct keys, no key occurs before its own position. */
  lemma LastIsNew(s: seq<string>, n: nat)
    requires 0 < n <= |s|
    requires forall i, j :: 0 <= i < j < |s| ==> s[i] != s[j]
    ensures s[n - 1] !in s[..n - 1]
  {
    var p := s[..n - 1];
    forall j | 0 <= j < |p| ensures p[j] != s[n - 1] {
      assert p[j] == s[j];
    }
  }

  const Empty: Dict := Dict([], map[])

  /** d.get(k). */
  function Lookup(d: Dict, k: string): Option<string> {
    if k in d.vals then Some(d.vals[k]) else None
  }

  /** d[k] = v: a new key goes last, an existing key keeps its place. */
  function Put(d: Dict, k: string, v: string): (r: Dict)
    ensures r.vals == d.vals[k := v]
    ensures r.keys == if k in d.vals then d.keys else d.keys + [k]
  {
    if k in d.vals then Dict(d.keys, d.vals[k := v]) else Dict(d.keys + [k], d.vals[k := v])
  }

  /** Setting a key keeps the dict's keys distinct and in step with its values. */
  lemma PutValid(d: Dict, k: string, v: string)
    requires Valid(d)
    ensures Valid(Put(d, k, v))
  {
    if k !in d.vals {
      var r := Put(d, k, v);
      assert r.keys == d.keys + [k];
      forall i, j | 0 <= i < j < |r.keys| ensures r.keys[i] != r.keys[j] {
        if j == |d.keys| { assert r.keys[i] == d.keys[i]; }
      }
    }
  }

  // ---------------------------------------------------------------------------
  // _read_env_file

  /** One line: ignored when blank after stripping, a comment, or without '='; otherwise
      split at the first '=' with both sides stripped. */
  function ParseLine(raw: string): (r: Option<(string, string)>)
    ensures r.None? <==> Strip(raw) == [] || Strip(raw)[0] == '#' || '=' !in Strip(raw)
    ensures r.Some? ==>
              var line := Strip(raw);
              exists k :: 0 <= k < |line| && line[k] == '=' && '=' !in line[..k]
                          && r.value == (Strip(line[..k]), Strip(line[k + 1..]))
  {
    var line := Strip(raw);
    if line == [] || line[0] == '#' || '=' !in line then None
    else
      var k := Find(line, '=');
      Some((Strip(line[..k]), Strip(line[k + 1..])))
  }

  /** What each line contributes: nothing, or one key and its value. */
  type Entry = Option<(string, string)>

  function Entries(ls: seq<string>): (es: seq<Entry>)
    ensures |es| == |ls|
  {
    if ls == [] then [] else [ParseLine(ls[0])] + Entries(ls[1..])
  }

  lemma {:induction false} EntriesAt(ls: seq<string>, i: nat)
    requires i < |ls|
    ensures Entries(ls)[i] == ParseLine(ls[i])
  {
    if i > 0 {
      EntriesAt(ls[1..], i - 1);
    }
  }

  lemma {:induction false} EntriesAppend(ls: seq<string>, raw: string)
    ensures Entries(ls + [raw]) == Entries(ls) + [ParseLine(raw)]
  {
    if ls != [] {
      assert (ls + [raw])[1..] == ls[1..] + [raw];
      EntriesAppend(ls[1..], raw);
    } else {
      assert ls + [raw] == [raw];
    }
  }

  /** One entry applied to the dict: an ignored line changes nothing, a parsed one sets
      its key. */
  function Step(d: Dict, e: Entry): Dict {
    match e
    case None => d
    case Some((k, v)) => Put(d, k, v)
  }

  /** The dict built from the first n entries, each setting its key in turn. */
  function Collect(es: seq<Entry>, n: nat): Dict
    requires n <= |es|
  {
    if n == 0 then Empty else Step(Collect(es, n - 1), es[n - 1])
  }

  /** A dict read from lines is a well-formed Python dict. */
  lemma {:induction false} CollectedValid(es: seq<Entry>, n: nat)
    requires n <= |es|
    ensures Valid(Collect(es, n))
  {
    if n > 0 {
      var prior := Collect(es, n - 1);
      CollectedValid(es, n - 1);
      CollectNext(es, n - 1);
      if es[n - 1].Some? {
        var k := es[n - 1].value.0;
        var v := es[n - 1].value.1;
        PutValid(prior, k, v);
      }
    }
  }

  /** One more entry: nothing changes for an ignored line, a parsed one sets its key. */
  lemma CollectNext(es: seq<Entry>, n: nat)
    requires n < |es|
    ensures es[n].None? ==> Collect(es, n + 1) == Collect(es, n)
    ensures es[n].Some? ==> Collect(es, n + 1) == Put(Collect(es, n), es[n].value.0, es[n].value.1)
  {
  }

  function ParseLines(ls: seq<string>): Dict {
    Collect(Entries(ls), |ls|)
  }

  /** _read_env_file(path): the parsed file, or {} when it does not exist. */
  function ReadEnv(files: map<Path, string>, path: Path): Dict {
    if path in files then ParseLines(Lines(files[path])) else Empty
  }

  lemma ReadEnvValid(files: map<Path, string>, path: Path)
    ensures Valid(ReadEnv(files, path))
  {
    if path in files {
      CollectedValid(Entries(Lines(files[path])), |Lines(files[path])|);
    }
  }

  /** Later entries do not affect the dict built from earlier ones. */
  lemma {:induction false} CollectPrefix(es: seq<Entry>, more: seq<Entry>, n: nat)
    requires n <= |es|
    ensures Collect(es + more, n) == Collect(es, n)
  {
    if n > 0 {
      CollectPrefix(es, more, n - 1);
      assert (es + more)[n - 1] == es[n - 1];
    }
  }

  /** A line that is ignored leaves the dict as it was; a parsed one sets its key, so a
      later duplicate wins while the key keeps its first position. */
  lemma ParseStep(ls: seq<string>, raw: string)
    ensures ParseLine(raw).None? ==> ParseLines(ls + [raw]) == ParseLines(ls)
    ensures ParseLine(raw).Some? ==>
              var (k, v) := ParseLine(raw).value;
              ParseLines(ls + [raw]).vals == ParseLines(ls).vals[k := v]
              && (k in ParseLines(ls).vals ==> ParseLines(ls + [raw]).keys == ParseLines(ls).keys)
  {
    var es := Entries(ls);
    var e := ParseLine(raw);
    EntriesAppend(ls, raw);
    CollectPrefix(es, [e], |ls|);
    assert (es + [e])[|ls|] == e;
  }

  /** _read_env_file, line by line. */
  method ReadEnvFile(host: Host, path: Path) returns (env: Dict)
    ensures env == ReadEnv(host.files, path)
  {
    if path !in host.files {
      return Empty;
    }
    env := ParseEnvLines(Lines(host.files[path]));
  }

  /** The loop of _read_env_file over the lines of the file. */
  method ParseEnvLines(lines: seq<string>) returns (env: Dict)
    ensures env == ParseLines(lines)
  {
    env := Empty;
    var i := 0;
    while i < |lines|
      invariant 0 <= i <= |lines|
      invariant env == Collect(Entries(lines), i)
    {
      EntriesAt(lines, i);
      env := Step(env, ParseLine(lines[i]));
      i := i + 1;
    }
  }



  // ---------------------------------------------------------------------------
  // What can be written and read back

  /** A key written as a line reads back as itself: stripped, without '=' or a line
      break, and not starting a comment. */
  predicate WellFormedKey(k: string) {
    IsStripped(k) && '=' !in k && '\n' !in k && (k == [] || k[0] != '#')
  }

  predicate WellFormedValue(v: string) {
    IsStripped(v) && '\n' !in v
  }

  predicate WellFormed(d: Dict) {
    && (forall k :: k in d.vals ==> WellFormedKey(k))
    && (forall k :: k in d.vals ==> WellFormedValue(d.vals[k]))
  }

  /** Every dict read from lines is well formed. */
  lemma ParseLineWellFormed(raw: string)
    requires '\n' !in raw
    requires ParseLine(raw).Some?
    ensures WellFormedKey(ParseLine(raw).value.0) && WellFormedValue(ParseLine(raw).value.1)
  {
    var line := Strip(raw);
    var k := Find(line, '=');
    var key := Strip(line[..k]);
    StripKeeps(raw);
    StripShape(raw);
    StripKeeps(line[..k]);
    StripKeeps(line[k + 1..]);
    StripShape(line[..k]);
    StripShape(line[k + 1..]);
    assert forall c :: c in line[..k] ==> c in line;
    assert forall c :: c in line[k + 1..] ==> c in line;
    if key != [] {
      assert line[..k][0] == line[0];
    }
  }

  /** Every entry names a well-formed key and value. */
  predicate EntriesWellFormed(es: seq<Entry>) {
    forall i :: 0 <= i < |es| && es[i].Some? ==> WellFormedKey(es[i].value.0) && WellFormedValue(es[i].value.1)
  }

  lemma EntriesOfLinesWellFormed(ls: seq<string>)
    requires forall j :: 0 <= j < |ls| ==> '\n' !in ls[j]
    ensures EntriesWellFormed(Entries(ls))
  {
    forall i | 0 <= i < |ls| && ParseLine(ls[i]).Some?
      ensures WellFormedKey(ParseLine(ls[i]).value.0) && WellFormedValue(ParseLine(ls[i]).value.1)
    {
      ParseLineWellFormed(ls[i]);
      EntriesAt(ls, i);
    }
  }

  lemma {:induction false} CollectedWellFormed(es: seq<Entry>, n: nat)
    requires n <= |es| && EntriesWellFormed(es)
    ensures WellFormed(Collect(es, n))
  {
    if n > 0 {
      CollectedWellFormed(es, n - 1);
    }
  }

  /** The lines _write_env writes: KEY=VALUE in key order. */
  function Render(d: Dict): (ls: seq<string>)
    ensures |ls| == |d.keys|
  {
    seq(|d.keys|, i requires 0 <= i < |d.keys| => d.keys[i] + "=" + (if d.keys[i] in d.vals then d.vals[d.keys[i]] else ""))
  }

  /** The file text: "\n".join(lines) + "\n". */
  function EnvText(d: Dict): string {
    Join("\n", Render(d)) + "\n"
  }

  /** A stripped line that is not a comment and has its first '=' at n splits there. */
  lemma ParseSplitLine(line: string, n: nat)
    requires IsStripped(line) && n < |line| && line[n] == '=' && line[0] != '#'
    requires forall j :: 0 <= j < n ==> line[j] != '='
    ensures ParseLine(line) == Some((Strip(line[..n]), Strip(line[n + 1..])))
  {
    StripStripped(line);
    assert Find(line, '=') == n;
  }

  lemma RenderedLineParses(k: string, v: string)
    requires WellFormedKey(k) && WellFormedValue(v)
    ensures ParseLine(k + "=" + v) == Some((k, v))
  {
    var line := k + "=" + v;
    var n := |k|;
    JoinedStripped(k, v);
    assert line[n] == '=';
    assert line[0] != '#' by {
      if k == [] { assert line[0] == '='; } else { assert line[0] == k[0]; }
    }
    assert line[..n] == k;
    assert line[n + 1..] == v;
    ParseSplitLine(line, n);
    StripStripped(k);
    StripStripped(v);
  }

  lemma JoinedStripped(k: string, v: string)
    requires IsStripped(k) && IsStripped(v)
    ensures IsStripped(k + "=" + v)
  {
    var line := k + "=" + v;
    if k == [] { assert line[0] == '='; } else { assert line[0] == k[0]; }
    if v == [] { assert line[|line| - 1] == '='; } else { assert line[|line| - 1] == v[|v| - 1]; }
  }

  /** The entries of d in key order, as the lines of its rendering parse to. */
  function DictEntries(d: Dict): (es: seq<Entry>)
    ensures |es| == |d.keys|
  {
    seq(|d.keys|, i requires 0 <= i < |d.keys| => Some((d.keys[i], ValueOf(d, d.keys[i]))))
  }

  function ValueOf(d: Dict, k: string): string {
    if k in d.vals then d.vals[k] else ""
  }

  /** d rebuilt by setting its first n entries in order. */
  function Rebuild(d: Dict, n: nat): Dict
    requires n <= |d.keys|
  {
    Collect(DictEntries(d), n)
  }

  lemma RebuildStep(d: Dict, n: nat)
    requires 0 < n <= |d.keys|
    ensures Rebuild(d, n) == Put(Rebuild(d, n - 1), d.keys[n - 1], ValueOf(d, d.keys[n - 1]))
  {
    assert DictEntries(d)[n - 1] == Some((d.keys[n - 1], ValueOf(d, d.keys[n - 1])));
  }

  /** The first n keys, and only they, are set by rebuilding... */
  lemma {:induction false} RebuildDomain(d: Dict, n: nat)
    requires n <= |d.keys|
    ensures forall k :: k in Rebuild(d, n).vals <==> k in d.keys[..n]
  {
    if n > 0 {
      RebuildDomain(d, n - 1);
      RebuildStep(d, n);
      var key := d.keys[n - 1];
      var before := d.keys[..n - 1];
      assert Rebuild(d, n).vals.Keys == Rebuild(d, n - 1).vals.Keys + {key};
      assert d.keys[..n] == before + [key];
      forall k ensures k in Rebuild(d, n).vals <==> k in d.keys[..n] {
        assert k in d.keys[..n] <==> k in before || k == key;
      }
    }
  }

  /** ... each with the value d holds for it ... */
  lemma {:induction false} RebuildValues(d: Dict, n: nat)
    requires n <= |d.keys|
    ensures forall k :: k in Rebuild(d, n).vals ==> Rebuild(d, n).vals[k] == ValueOf(d, k)
  {
    if n > 0 {
      RebuildValues(d, n - 1);
      RebuildStep(d, n);
      var key := d.keys[n - 1];
      assert Rebuild(d, n).vals == Rebuild(d, n - 1).vals[key := ValueOf(d, key)];
    }
  }

  /** ... and, the keys being distinct, in d's order. */
  lemma {:induction false} RebuildKeys(d: Dict, n: nat)
    requires n <= |d.keys|
    requires forall i, j :: 0 <= i < j < |d.keys| ==> d.keys[i] != d.keys[j]
    ensures Rebuild(d, n).keys == d.keys[..n]
  {
    if n > 0 {
      RebuildKeys(d, n - 1);
      RebuildDomain(d, n - 1);
      RebuildStep(d, n);
      LastIsNew(d.keys, n);
      assert d.keys[n - 1] !in Rebuild(d, n - 1).vals;
      assert d.keys[..n] == d.keys[..n - 1] + [d.keys[n - 1]];
    }
  }

  lemma RebuildWhole(d: Dict)
    requires Valid(d)
    ensures Rebuild(d, |d.keys|) == d
  {
    var r := Rebuild(d, |d.keys|);
    RebuildDomain(d, |d.keys|);
    RebuildValues(d, |d.keys|);
    RebuildKeys(d, |d.keys|);
    assert d.keys[..|d.keys|] == d.keys;
    assert r.keys == d.keys;
    assert forall k :: k in r.vals <==> k in d.vals;
    assert forall k :: k in r.vals ==> r.vals[k] == d.vals[k];
    assert r.vals == d.vals;
  }

  /** Every rendered line parses back to its entry. */
  lemma EntriesOfRender(d: Dict)
    requires Valid(d) && WellFormed(d)
    ensures Entries(Render(d)) == DictEntries(d)
  {
    var es := Entries(Render(d));
    forall i | 0 <= i < |d.keys| ensures es[i] == DictEntries(d)[i] {
      var k := d.keys[i];
      EntriesAt(Render(d), i);
      assert k in d.vals;
      assert Render(d)[i] == k + "=" + d.vals[k];
      RenderedLineParses(k, d.vals[k]);
    }
  }

  /** The file text splits back into the rendered lines; an empty dict gives one empty
      line, which parses to nothing. */
  lemma LinesOfEnvText(d: Dict)
    requires Valid(d) && WellFormed(d)
    ensures d.keys != [] ==> Lines(EnvText(d)) == Render(d)
    ensures d.keys == [] ==> Lines(EnvText(d)) == [""]
  {
    var ls := Render(d);
    if ls == [] {
      assert EnvText(d) == "\n";
      assert Find("\n", '\n') == 0;
      assert "\n"[1..] == [];
    } else {
      forall j | 0 <= j < |ls| ensures '\n' !in ls[j] {
        var k := d.keys[j];
        assert k in d.vals;
        assert ls[j] == k + "=" + d.vals[k];
      }
      JoinNewlines(ls);
      LinesUnlines(ls);
    }
  }

  /** Writing a well-formed dict and reading the file back gives the dict. */
  lemma RenderRoundTrip(files: map<Path, string>, path: Path, d: Dict)
    requires Valid(d) && WellFormed(d)
    ensures ReadEnv(files[path := EnvText(d)], path) == d
  {
    LinesOfEnvText(d);
    if d.keys == [] {
      assert ParseLine("") == None;
      assert Entries([""]) == [None];
      assert Collect([None], 1) == Empty;
      assert d.vals == map[];
    } else {
      EntriesOfRender(d);
      RebuildWhole(d);
    }
  }

  // ---------------------------------------------------------------------------
  // _apply_env

  /** os.environ[k] = v is refused when the name is empty or holds '=' (ValueError or,
      from setenv, OSError) or when the name or the value holds a NUL character
      (ValueError). */
  predicate Rejected(k: string, v: string) {
    k == [] || '=' in k || '\0' in k || '\0' in v
  }

  /** The i-th entry of d is one _apply_env assigns: it has a non-empty value. */
  predicate Assigns(d: Dict, i: nat)
    requires i < |d.keys|
  {
    d.keys[i] in d.vals && d.vals[d.keys[i]] != []
  }

  /** os.environ after _apply_env has gone through the first n entries of d, and the
      exception that stopped it, if any. Assignments made before the exception stay. */
  function ApplyUpTo(environ: map<string, string>, d: Dict, n: nat): (map<string, string>, Option<Fault>)
    requires n <= |d.keys|
  {
    if n == 0 then (environ, None)
    else
      var prior := ApplyUpTo(environ, d, n - 1);
      var k := d.keys[n - 1];
      if prior.1.Some? || !Assigns(d, n - 1) then prior
      else if Rejected(k, d.vals[k]) then (prior.0, Some(EnvironmentRejected))
      else (prior.0[k := d.vals[k]], None)
  }

  function Applied(environ: map<string, string>, d: Dict): (map<string, string>, Option<Fault>) {
    ApplyUpTo(environ, d, |d.keys|)
  }

  /** Key k is among the first n entries of d and has a non-empty value. */
  predicate Exported(d: Dict, n: nat, k: string)
    requires n <= |d.keys|
  {
    k in d.keys[..n] && k in d.vals && d.vals[k] != []
  }

  /** Going through the first n entries fails exactly when one of them would export a
      refused name or value, and the exception is EnvironmentRejected. */
  lemma {:induction false} AppliedFails(environ: map<string, string>, d: Dict, n: nat)
    requires n <= |d.keys|
    ensures ApplyUpTo(environ, d, n).1.Some? <==> exists k :: Exported(d, n, k) && Rejected(k, d.vals[k])
    ensures ApplyUpTo(environ, d, n).1.Some? ==> ApplyUpTo(environ, d, n).1 == Some(EnvironmentRejected)
  {
    if n > 0 {
      AppliedFails(environ, d, n - 1);
      assert d.keys[..n] == d.keys[..n - 1] + [d.keys[n - 1]];
      var k := d.keys[n - 1];
      if ApplyUpTo(environ, d, n - 1).1.Some? {
        var j :| Exported(d, n - 1, j) && Rejected(j, d.vals[j]);
        assert Exported(d, n, j);
      } else if Assigns(d, n - 1) && Rejected(k, d.vals[k]) {
        assert Exported(d, n, k);
      }
    }
  }

  /** When going through the first n entries does not fail, exactly the non-empty
      entries are exported and every other variable is left alone. */
  lemma {:induction false} AppliedEffect(environ: map<string, string>, d: Dict, n: nat)
    requires n <= |d.keys|
    requires ApplyUpTo(environ, d, n).1.None?
    ensures forall k :: Exported(d, n, k) ==> k in ApplyUpTo(environ, d, n).0 && ApplyUpTo(environ, d, n).0[k] == d.vals[k]
    ensures forall k :: !Exported(d, n, k) ==>
              (k in ApplyUpTo(environ, d, n).0 <==> k in environ)
              && (k in environ ==> ApplyUpTo(environ, d, n).0[k] == environ[k])
  {
    if n > 0 {
      AppliedEffect(environ, d, n - 1);
      assert d.keys[..n] == d.keys[..n - 1] + [d.keys[n - 1]];
    }
  }

  /** A dict whose first entry has an empty name and a non-empty value fails at once,
      before exporting anything. */
  lemma EmptyNameFails(environ: map<string, string>, v: string, rest: Dict)
    requires v != []
    ensures Applied(environ, Dict([""] + rest.keys, rest.vals["" := v])) == (environ, Some(EnvironmentRejected))
  {
    var d := Dict([""] + rest.keys, rest.vals["" := v]);
    assert ApplyUpTo(environ, d, 1) == (environ, Some(EnvironmentRejected));
    FaultSticks(environ, d, 1, |d.keys|);
  }

  /** Once an assignment has failed, later entries change nothing. */
  lemma {:induction false} FaultSticks(environ: map<string, string>, d: Dict, m: nat, n: nat)
    requires m <= n <= |d.keys|
    requires ApplyUpTo(environ, d, m).1.Some?
    ensures ApplyUpTo(environ, d, n) == ApplyUpTo(environ, d, m)
  {
    if n > m {
      FaultSticks(environ, d, m, n - 1);
    }
  }

  /** _apply_env: assigns the non-empty entries in order and stops at the first one
      os.environ refuses, returning the exception. */
  method ApplyEnv(host: Host, env: Dict) returns (fault: Option<Fault>)
    modifies host
    ensures (host.environ, fault) == Applied(old(host.environ), env)
    ensures host.files == old(host.files)
  {
    var i := 0;
    while i < |env.keys|
      invariant 0 <= i <= |env.keys|
      invariant ApplyUpTo(old(host.environ), env, i) == (host.environ, None)
      invariant host.files == old(host.files)
    {
      var key := env.keys[i];
      if key in env.vals && env.vals[key] != [] {
        if Rejected(key, env.vals[key]) {
          FaultSticks(old(host.environ), env, i + 1, |env.keys|);
          return Some(EnvironmentRejected);
        }
        host.environ := host.environ[key := env.vals[key]];
      }
      i := i + 1;
    }
    return None;
  }

  /** At import the generated app reads its .env and exports it; a refused entry makes
      the import raise. */
  method LoadEnvAtStartup(host: Host, envPath: Path) returns (applied: Dict, fault: Option<Fault>)
    modifies host
    ensures applied == ReadEnv(old(host.files), envPath)
    ensures (host.environ, fault) == Applied(old(host.environ), applied)
    ensures host.files == old(host.files)
  {
    applied := ReadEnvFile(host, envPath);
    fault := ApplyEnv(host, applied);
  }

  /** A `.env` file whose only line is `=x` holds one entry with the empty name. */
  lemma ReadEmptyNameLine(files: map<Path, string>, envPath: Path)
    requires envPath in files && files[envPath] == "=x"
    ensures ReadEnv(files, envPath) == Dict([""], map["" := "x"])
  {
    var line := "=x";
    assert Find(line, '\n') == 2 by { assert line[0] != '\n' && line[1] != '\n'; }
    assert Lines(line) == [line];
    ParseEmptyNameLine();
    assert Entries([line]) == [Some(("", "x"))];
    assert Collect([Some(("", "x"))], 1) == Put(Empty, "", "x");
  }

  /** The line `=x` parses to the empty name with value `x`. */
  lemma ParseEmptyNameLine()
    ensures ParseLine("=x") == Some(("", "x"))
  {
    var line := "=x";
    StripStripped(line);
    StripStripped("x");
    StripStripped("");
    assert Find(line, '=') == 0;
    assert line[..0] == "" && line[1..] == "x";
  }

  /** A `.env` file whose only line is `=x` makes the generated app fail at import. */
  lemma StartupWithEmptyNameFails(files: map<Path, string>, envPath: Path, environ: map<string, string>)
    requires envPath in files && files[envPath] == "=x"
    ensures Applied(environ, ReadEnv(files, envPath)).1 == Some(EnvironmentRejected)
  {
    ReadEmptyNameLine(files, envPath);
    assert [""] + Empty.keys == [""];
    EmptyNameFails(environ, "x", Empty);
  }

  // ---------------------------------------------------------------------------
  // _write_env

  /** The stripped value of the i-th update ("" for a key without value). */
  function UpdateValue(updates: Dict, i: nat): string
    requires i < |updates.keys|
  {
    var k := updates.keys[i];
    if k in updates.vals then Strip(updates.vals[k]) else ""
  }

  /** The stored value becomes the stripped update when that is non-empty and differs;
      the flag records whether that ever happened. */
  function MergeUpTo(current: Dict, updates: Dict, n: nat): (res: (Dict, bool))
    requires n <= |updates.keys|
  {
    if n == 0 then (current, false)
    else
      var (acc, changed) := MergeUpTo(current, updates, n - 1);
      var k := updates.keys[n - 1];
      var v := UpdateValue(updates, n - 1);
      if v != [] && Lookup(acc, k) != Some(v) then (Put(acc, k, v), true) else (acc, changed)
  }

  function Merge(current: Dict, updates: Dict): (Dict, bool) {
    MergeUpTo(current, updates, |updates.keys|)
  }

  /** The updates whose stripped value is non-empty, stripped: what _write_env exports. */
  function StrippedUpTo(updates: Dict, n: nat): Dict
    requires n <= |updates.keys|
  {
    if n == 0 then Empty
    else
      var prior := StrippedUpTo(updates, n - 1);
      var v := UpdateValue(updates, n - 1);
      if v != [] then Put(prior, updates.keys[n - 1], v) else prior
  }

  function StrippedUpdates(updates: Dict): Dict {
    StrippedUpTo(updates, |updates.keys|)
  }

  /** The merge removes no key and keeps the old keys first, in their order. */
  lemma {:induction false} MergeKeepsKeys(current: Dict, updates: Dict, n: nat)
    requires n <= |updates.keys|
    ensures var m := MergeUpTo(current, updates, n).0;
            && |current.keys| <= |m.keys| && m.keys[..|current.keys|] == current.keys
            && (forall k :: k in current.vals ==> k in m.vals)
  {
    if n > 0 {
      MergeKeepsKeys(current, updates, n - 1);
      var prior := MergeUpTo(current, updates, n - 1).0;
      var m := MergeUpTo(current, updates, n).0;
      assert m.keys[..|prior.keys|] == prior.keys;
      assert m.keys[..|current.keys|] == prior.keys[..|current.keys|];
    }
  }

  /** The merged values are the values read, overridden by the non-empty stripped
      updates: a key whose update equals the stored value is left alone, which comes to
      the same thing. */
  lemma {:induction false} MergeOverrides(current: Dict, updates: Dict, n: nat)
    requires n <= |updates.keys|
    ensures MergeUpTo(current, updates, n).0.vals == current.vals + StrippedUpTo(updates, n).vals
  {
    if n > 0 {
      MergeOverrides(current, updates, n - 1);
      var prior := MergeUpTo(current, updates, n - 1).0;
      var s := StrippedUpTo(updates, n - 1);
      var key := updates.keys[n - 1];
      var v := UpdateValue(updates, n - 1);
      if v != [] {
        assert StrippedUpTo(updates, n).vals == s.vals[key := v];
        assert prior.vals[key := v] == current.vals + s.vals[key := v];
        if !Differs(prior, updates, n - 1) {
          assert prior.vals[key := v] == prior.vals;
        }
      }
    }
  }

  /** The exported updates: exactly the keys whose stripped update is non-empty ... */
  lemma {:induction false} StrippedDomain(updates: Dict, n: nat)
    requires Valid(updates) && n <= |updates.keys|
    ensures forall k :: k in StrippedUpTo(updates, n).vals <==> k in updates.keys[..n] && Strip(updates.vals[k]) != []
  {
    if n > 0 {
      StrippedDomain(updates, n - 1);
      var key := updates.keys[n - 1];
      var before := updates.keys[..n - 1];
      assert key in updates.vals;
      assert updates.keys[..n] == before + [key];
      var keys := StrippedUpTo(updates, n).vals.Keys;
      var earlier := StrippedUpTo(updates, n - 1).vals.Keys;
      assert keys == if Strip(updates.vals[key]) != [] then earlier + {key} else earlier;
      forall k ensures k in keys <==> k in updates.keys[..n] && Strip(updates.vals[k]) != [] {
        if k == key {
          assert k in updates.keys[..n];
        } else {
          assert k in updates.keys[..n] <==> k in before;
        }
      }
    }
  }

  /** ... each with its stripped value. */
  lemma {:induction false} StrippedValues(updates: Dict, n: nat)
    requires Valid(updates) && n <= |updates.keys|
    ensures forall k :: k in StrippedUpTo(updates, n).vals ==> k in updates.vals && StrippedUpTo(updates, n).vals[k] == Strip(updates.vals[k])
  {
    if n > 0 {
      StrippedValues(updates, n - 1);
      assert updates.keys[n - 1] in updates.vals;
    }
  }

  /** What the merge leaves: no key removed, the old keys first and in order, every
      non-empty stripped update stored, every other value unchanged. */
  lemma MergeContents(current: Dict, updates: Dict, n: nat)
    requires Valid(updates) && n <= |updates.keys|
    ensures var m := MergeUpTo(current, updates, n).0;
            && |current.keys| <= |m.keys| && m.keys[..|current.keys|] == current.keys
            && (forall k :: k in current.vals ==> k in m.vals)
            && (forall k :: k in updates.keys[..n] && Strip(updates.vals[k]) != [] ==> k in m.vals && m.vals[k] == Strip(updates.vals[k]))
            && (forall k :: k in m.vals && !(k in updates.keys[..n] && Strip(updates.vals[k]) != []) ==> k in current.vals && m.vals[k] == current.vals[k])
  {
    MergeKeepsKeys(current, updates, n);
    MergeOverrides(current, updates, n);
    StrippedDomain(updates, n);
    StrippedValues(updates, n);
  }

  /** Merging well-formed updates into a well-formed dict keeps it well formed. */
  lemma {:induction false} MergedWellFormed(current: Dict, updates: Dict, n: nat)
    requires WellFormed(current) && n <= |updates.keys|
    requires forall k :: k in updates.vals ==> WellFormedKey(k) && '\n' !in updates.vals[k]
    ensures WellFormed(MergeUpTo(current, updates, n).0)
  {
    if n > 0 {
      MergedWellFormed(current, updates, n - 1);
      var key := updates.keys[n - 1];
      if key in updates.vals {
        StripKeeps(updates.vals[key]);
        StripShape(updates.vals[key]);
      }
    }
  }

  lemma {:induction false} MergedValid(current: Dict, updates: Dict, n: nat)
    requires Valid(current) && n <= |updates.keys|
    ensures Valid(MergeUpTo(current, updates, n).0)
  {
    if n > 0 {
      MergedValid(current, updates, n - 1);
      PutValid(MergeUpTo(current, updates, n - 1).0, updates.keys[n - 1], UpdateValue(updates, n - 1));
    }
  }

  /** A key not among the first n updates looks the same before and after them. */
  lemma {:induction false} MergeUntouched(current: Dict, updates: Dict, n: nat, k: string)
    requires n <= |updates.keys| && k !in updates.keys[..n]
    ensures Lookup(MergeUpTo(current, updates, n).0, k) == Lookup(current, k)
  {
    if n > 0 {
      assert updates.keys[..n] == updates.keys[..n - 1] + [updates.keys[n - 1]];
      MergeUntouched(current, updates, n - 1, k);
    }
  }

  /** The i-th update is non-empty once stripped and differs from the stored value. */
  predicate Differs(current: Dict, updates: Dict, i: nat)
    requires i < |updates.keys|
  {
    UpdateValue(updates, i) != [] && Lookup(current, updates.keys[i]) != Some(UpdateValue(updates, i))
  }

  /** Some stripped, non-empty update differs from the stored value. */
  predicate SomeUpdateDiffers(current: Dict, updates: Dict, n: nat)
    requires n <= |updates.keys|
  {
    exists i :: 0 <= i < n && Differs(current, updates, i)
  }

  /** The flag is set if and only if some stripped, non-empty update differs from what
      the file held; when it is not set the dict is the one read. */
  lemma {:induction false} MergeChangedIff(current: Dict, updates: Dict, n: nat)
    requires n <= |updates.keys|
    requires forall i, j :: 0 <= i < j < |updates.keys| ==> updates.keys[i] != updates.keys[j]
    ensures MergeUpTo(current, updates, n).1 <==> SomeUpdateDiffers(current, updates, n)
    ensures !MergeUpTo(current, updates, n).1 ==> MergeUpTo(current, updates, n).0 == current
  {
    if n > 0 {
      var prev := MergeUpTo(current, updates, n - 1);
      MergeChangedIff(current, updates, n - 1);
      var k := updates.keys[n - 1];
      LastIsNew(updates.keys, n);
      MergeUntouched(current, updates, n - 1, k);
      if Differs(current, updates, n - 1) {
        assert MergeUpTo(current, updates, n).1;
        assert SomeUpdateDiffers(current, updates, n);
      } else {
        assert MergeUpTo(current, updates, n) == prev;
        if SomeUpdateDiffers(current, updates, n) {
          var i :| 0 <= i < n && Differs(current, updates, i);
          assert i < n - 1;
        }
      }
    }
  }

  /** _write_env, with the .env file at envPath: read, merge key by key, write only when
      something changed, then export the non-empty stripped updates. */
  method WriteEnv(host: Host, envPath: Path, updates: Dict) returns (r: Result<bool>)
    modifies host
    ensures var (merged, changed) := Merge(ReadEnv(old(host.files), envPath), updates);
            && host.files == (if changed then old(host.files)[envPath := EnvText(merged)] else old(host.files))
            && var (environ, fault) := Applied(old(host.environ), StrippedUpdates(updates));
            && host.environ == environ
            && r == (if fault.Some? then Err(fault.value) else Ok(changed))
  {
    var current := ReadEnvFile(host, envPath);
    var changed;
    current, changed := MergeUpdates(current, updates);
    if changed {
      host.files := host.files[envPath := Join("\n", Render(current)) + "\n"];
    }
    var exported := ExportedUpdates(updates);
    var fault := ApplyEnv(host, exported);
    r := if fault.Some? then Err(fault.value) else Ok(changed);
  }

  /** The merge loop of _write_env over updates.items(). */
  method MergeUpdates(read: Dict, updates: Dict) returns (current: Dict, changed: bool)
    ensures (current, changed) == Merge(read, updates)
  {
    current, changed := read, false;
    var i := 0;
    while i < |updates.keys|
      invariant 0 <= i <= |updates.keys|
      invariant (current, changed) == MergeUpTo(read, updates, i)
    {
      var key := updates.keys[i];
      var value := if key in updates.vals then Strip(updates.vals[key]) else "";
      assert value == UpdateValue(updates, i);
      if value != [] && Lookup(current, key) != Some(value) {
        current := Put(current, key, value);
        changed := true;
      }
      i := i + 1;
    }
  }

  /** The dict comprehension of _write_env: the non-empty stripped updates. */
  method ExportedUpdates(updates: Dict) returns (exported: Dict)
    ensures exported == StrippedUpdates(updates)
  {
    exported := Empty;
    var i := 0;
    while i < |updates.keys|
      invariant 0 <= i <= |updates.keys|
      invariant exported == StrippedUpTo(updates, i)
    {
      var key := updates.keys[i];
      var value := if key in updates.vals then Strip(updates.vals[key]) else "";
      assert value == UpdateValue(updates, i);
      if value != [] {
        exported := Put(exported, key, value);
      }
      i := i + 1;
    }
  }

  /** After _write_env with well-formed keys and values, reading the file gives the
      merged dict, whether or not the file was rewritten. */
  lemma WriteThenRead(files: map<Path, string>, envPath: Path, updates: Dict)
    requires Valid(updates)
    requires forall k :: k in updates.vals ==> WellFormedKey(k) && '\n' !in updates.vals[k]
    ensures var (merged, changed) := Merge(ReadEnv(files, envPath), updates);
            var after := if changed then files[envPath := EnvText(merged)] else files;
            ReadEnv(after, envPath) == merged
  {
    var current := ReadEnv(files, envPath);
    var (merged, changed) := Merge(current, updates);
    if envPath in files {
      LinesHaveNoBreak(files[envPath]);
      EntriesOfLinesWellFormed(Lines(files[envPath]));
      CollectedWellFormed(Entries(Lines(files[envPath])), |Lines(files[envPath])|);
    }
    MergeChangedIff(current, updates, |updates.keys|);
    if changed {
      ReadEnvValid(files, envPath);
      MergedValid(current, updates, |updates.keys|);
      MergedWellFormed(current, updates, |updates.keys|);
      RenderRoundTrip(files, envPath, merged);
    }
  }

  /** _write_env never removes a key from the file, and stores every non-empty stripped
      update. */
  lemma WriteNeverRemoves(files: map<Path, string>, envPath: Path, updates: Dict)
    requires Valid(updates)
    ensures var current := ReadEnv(files, envPath);
            var merged := Merge(current, updates).0;
            && (forall k :: k in current.vals ==> k in merged.vals)
            && (forall k :: k in updates.vals && Strip(updates.vals[k]) != [] ==> Lookup(merged, k) == Some(Strip(updates.vals[k])))
  {
    var current := ReadEnv(files, envPath);
    MergeContents(current, updates, |updates.keys|);
    assert updates.keys[..|updates.keys|] == updates.keys;
  }
}
