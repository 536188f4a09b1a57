/** The runtime-app generator: it picks a file name that does not collide, strips the
    authoring-only parts of the prompt bundle, and writes one self-contained app made
    of the fixed header (the .env helpers), the provider module with the real clients
    appended, the evaluation module and the UI. */
module Generator {
  import opened Text
  import opened Json
  import opened Host
  import PromptFactory

  // ---------------------------------------------------------------------------
  // _ensure_unique_path

  /** pathlib's split of a file name: the suffix starts at the last '.', unless that dot
      is the first or the last character. */
  function SuffixOf(name: string): (s: string)
    ensures s == [] || s[0] == '.'
  {
    var i := RFind(name, '.');
    if 0 < i < |name| - 1 then name[i..] else ""
  }

  function StemOf(name: string): (s: string)
    ensures s + SuffixOf(name) == name
  {
    var i := RFind(name, '.');
    if 0 < i < |name| - 1 then name[..i] else name
  }

  /** base.with_name(f"{stem}_{counter}{suffix}"). */
  function Candidate(p: Path, k: nat): Path {
    Path(p.dir, StemOf(p.name) + "_" + NatToString(k) + SuffixOf(p.name))
  }

  /** Different counters give different candidates. */
  lemma CandidateInjective(p: Path, a: nat, b: nat)
    requires Candidate(p, a) == Candidate(p, b)
    ensures a == b
  {
    var pre := StemOf(p.name) + "_";
    var suf := SuffixOf(p.name);
    var na := Candidate(p, a).name;
    assert na == pre + NatToString(a) + suf;
    assert na[|pre|..|na| - |suf|] == NatToString(a);
    assert Candidate(p, b).name == pre + NatToString(b) + suf;
    assert na[|pre|..|na| - |suf|] == NatToString(b);
    NatToStringInjective(a, b);
  }

  /** A candidate keeps the directory and the extension, and its stem is the old stem,
      an underscore and the counter. */
  lemma CandidateKeepsSuffix(p: Path, k: nat)
    requires SuffixOf(p.name) != []
    ensures Candidate(p, k).dir == p.dir
    ensures SuffixOf(Candidate(p, k).name) == SuffixOf(p.name)
    ensures StemOf(Candidate(p, k).name) == StemOf(p.name) + "_" + NatToString(k)
  {
    var suf := SuffixOf(p.name);
    var i := RFind(p.name, '.');
    assert suf == p.name[i..];
    assert forall j :: 0 < j < |suf| ==> suf[j] != '.' by {
      forall j | 0 < j < |suf| ensures suf[j] != '.' {
        assert suf[j] == p.name[i + j];
      }
    }
    var front := StemOf(p.name) + "_" + NatToString(k);
    var n := front + suf;
    assert n == Candidate(p, k).name;
    assert n[|front|] == '.';
    forall j | |front| < j < |n| ensures n[j] != '.' {
      assert n[j] == suf[j - |front|];
    }
    assert RFind(n, '.') == |front| by {
      RFindLast(n, '.', |front|);
    }
    assert n[|front|..] == suf;
    assert n[..|front|] == front;
  }

  /** rfind finds the position of a last occurrence. */
  lemma {:induction false} RFindLast(s: string, c: char, k: nat)
    requires k < |s| && s[k] == c
    requires forall j :: k < j < |s| ==> s[j] != c
    ensures RFind(s, c) == k
    decreases |s|
  {
    if |s| - 1 != k {
      RFindLast(s[..|s| - 1], c, k);
    }
  }

  /** What _ensure_unique_path returns: the path itself when free, otherwise the first
      free candidate with counter 1, 2, ... */
  ghost predicate UniqueChoice(existing: set<Path>, p: Path, r: Path) {
    && r !in existing
    && (p !in existing ==> r == p)
    && (p in existing ==>
          exists k :: 1 <= k && r == Candidate(p, k) && forall j :: 1 <= j < k ==> Candidate(p, j) in existing)
  }

  /** That choice is a function of the existing paths. */
  lemma ChoiceIsUnique(existing: set<Path>, p: Path, r1: Path, r2: Path)
    requires UniqueChoice(existing, p, r1) && UniqueChoice(existing, p, r2)
    ensures r1 == r2
  {
    if p in existing {
      var k1 :| 1 <= k1 && r1 == Candidate(p, k1) && forall j :: 1 <= j < k1 ==> Candidate(p, j) in existing;
      var k2 :| 1 <= k2 && r2 == Candidate(p, k2) && forall j :: 1 <= j < k2 ==> Candidate(p, j) in existing;
    }
  }

  lemma SubsetSize(a: set<Path>, b: set<Path>)
    requires a <= b
    ensures |a| <= |b|
  {
    assert b == a + (b - a);
  }

  /** The candidates with counters 1 to n. */
  ghost function Taken(p: Path, n: nat): set<Path> {
    if n == 0 then {} else Taken(p, n - 1) + {Candidate(p, n)}
  }

  /** A candidate is not among those with smaller counters. */
  lemma {:induction false} NotTakenBefore(p: Path, m: nat, k: nat)
    requires m < k
    ensures Candidate(p, k) !in Taken(p, m)
  {
    if m > 0 {
      NotTakenBefore(p, m - 1, k);
      if Candidate(p, m) == Candidate(p, k) {
        CandidateInjective(p, m, k);
      }
    }
  }

  /** Distinct counters give distinct candidates, so n counters name n paths. */
  lemma {:induction false} TakenSize(p: Path, n: nat)
    ensures |Taken(p, n)| == n
  {
    if n > 0 {
      TakenSize(p, n - 1);
      NotTakenBefore(p, n - 1, n);
    }
  }

  /** Candidates that all exist are no more than the existing paths. */
  lemma {:induction false} TakenBound(existing: set<Path>, p: Path, n: nat)
    requires forall j :: 1 <= j <= n ==> Candidate(p, j) in existing
    ensures n <= |existing|
  {
    var t := Taken(p, n);
    assert t <= existing by {
      TakenWithin(existing, p, n);
    }
    TakenSize(p, n);
    SubsetSize(t, existing);
  }

  lemma {:induction false} TakenWithin(existing: set<Path>, p: Path, n: nat)
    requires forall j :: 1 <= j <= n ==> Candidate(p, j) in existing
    ensures Taken(p, n) <= existing
  {
    if n > 0 {
      TakenWithin(existing, p, n - 1);
    }
  }

  /** The first free candidate is the choice. */
  lemma FirstFreeCandidate(existing: set<Path>, p: Path, k: nat)
    requires p in existing && 1 <= k && Candidate(p, k) !in existing
    requires forall j :: 1 <= j < k ==> Candidate(p, j) in existing
    ensures UniqueChoice(existing, p, Candidate(p, k))
  {
  }

  /** _ensure_unique_path: the `while True` loop over the counter. It ends because
      the candidates are distinct and every one tried exists. */
  method EnsureUniquePath(host: Host, initial: Path) returns (r: Path)
    ensures UniqueChoice(host.files.Keys, initial, r)
  {
    if initial !in host.files {
      return initial;
    }
    var counter := 1;
    while true
      invariant 1 <= counter <= |host.files.Keys| + 1
      invariant forall j :: 1 <= j < counter ==> Candidate(initial, j) in host.files
      decreases |host.files.Keys| + 1 - counter
    {
      var candidate := Candidate(initial, counter);
      if candidate !in host.files {
        FirstFreeCandidate(host.files.Keys, initial, counter);
        return candidate;
      }
      TakenBound(host.files.Keys, initial, counter);
      counter := counter + 1;
    }
  }

  // ---------------------------------------------------------------------------
  // _sanitize_prompt_bundle

  /** The bundle with user.roi_map and few_shots removed, after a deep copy (a value, so
      the caller's bundle is never changed). `"roi_map" in user` is a substring test on
      a str and a membership test on a list; pop then fails on both, and `in` fails on
      None, numbers and booleans. */
  function Sanitized(bundle: Object): (r: Result<Object>) {
    var user := Get(bundle, "user", Obj(map[]));
    match user
    case Obj(m) => Ok(bundle["user" := Obj(m - {"roi_map"})] - {"few_shots"})
    case Str(s) => if Contains(s, "roi_map") then Err(AttributeError) else Ok(bundle["user" := user] - {"few_shots"})
    case Arr(xs) => if Str("roi_map") in xs then Err(TypeError) else Ok(bundle["user" := user] - {"few_shots"})
    case _ => Err(TypeError)
  }

  /** _sanitize_prompt_bundle, popping keys from the copy in place. */
  method SanitizePromptBundle(bundle: Object) returns (r: Result<Object>)
    ensures r == Sanitized(bundle)
  {
    var clean := bundle;
    var user := if "user" in clean then clean["user"] else Obj(map[]);
    var hasRoi: bool;
    match user {
      case Obj(m) => hasRoi := "roi_map" in m;
      case Str(s) => hasRoi := Contains(s, "roi_map");
      case Arr(xs) => hasRoi := Str("roi_map") in xs;
      case _ => return Err(TypeError);
    }
    if hasRoi {
      match user {
        case Obj(m) => user := Obj(m - {"roi_map"});
        case Str(_) => return Err(AttributeError);
        case _ => return Err(TypeError);
      }
    }
    assert user.Obj? ==> user == Obj(Get(bundle, "user", Obj(map[])).fields - {"roi_map"});
    clean := clean["user" := user];
    clean := clean - {"few_shots"};
    r := Ok(clean);
  }

  /** What is kept: every top-level key but few_shots, with its value, except that user
      is always present and, when it is a dict, loses roi_map and nothing else. */
  lemma SanitizeKeeps(bundle: Object)
    requires Sanitized(bundle).Ok?
    ensures var c := Sanitized(bundle).value;
            && c.Keys == (bundle.Keys + {"user"}) - {"few_shots"}
            && (forall k :: k in bundle && k != "user" && k != "few_shots" ==> c[k] == bundle[k])
            && ("user" in bundle && bundle["user"].Obj? ==>
                  c["user"] == Obj(bundle["user"].fields - {"roi_map"}))
            && ("user" in bundle && !bundle["user"].Obj? ==> c["user"] == bundle["user"])
            && ("user" !in bundle ==> c["user"] == Obj(map[]))
  {
  }

  /** A user value that cannot be searched or popped makes the sanitiser raise. */
  lemma SanitizeFailures(bundle: Object)
    ensures "user" in bundle && bundle["user"].Str? && Contains(bundle["user"].s, "roi_map") ==> Sanitized(bundle) == Err(AttributeError)
    ensures "user" in bundle && bundle["user"].Arr? && Str("roi_map") in bundle["user"].items ==> Sanitized(bundle) == Err(TypeError)
    ensures "user" in bundle && (bundle["user"].Null? || bundle["user"].Bool? || bundle["user"].Num?) ==> Sanitized(bundle) == Err(TypeError)
    ensures Sanitized(bundle).Err? <==> "user" in bundle && !bundle["user"].Obj?
                                        && !(bundle["user"].Str? && !Contains(bundle["user"].s, "roi_map"))
                                        && !(bundle["user"].Arr? && Str("roi_map") !in bundle["user"].items)
  {
  }

  /** Sanitising twice is sanitising once. */
  lemma SanitizeIdempotent(bundle: Object)
    requires Sanitized(bundle).Ok?
    ensures Sanitized(Sanitized(bundle).value) == Sanitized(bundle)
  {
    var c := Sanitized(bundle).value;
    var user := Get(bundle, "user", Obj(map[]));
    assert c["user"] == (if user.Obj? then Obj(user.fields - {"roi_map"}) else user);
    if user.Obj? {
      assert user.fields - {"roi_map"} - {"roi_map"} == user.fields - {"roi_map"};
      assert c["user" := c["user"]] == c;
    } else {
      assert c["user" := user] == c;
    }
    assert c - {"few_shots"} == c;
  }

  /** A bundle from build_prompt_bundle passes through unchanged. */
  lemma SanitizeBuiltBundle(specText: string)
    ensures Sanitized(PromptFactory.BuildPromptBundle(specText)) == Ok(PromptFactory.BuildPromptBundle(specText))
  {
    var b := PromptFactory.BuildPromptBundle(specText);
    var u := b["user"].fields;
    assert u - {"roi_map"} == u;
    assert b["user" := Obj(u)] == b;
    assert b - {"few_shots"} == b;
  }

  // ---------------------------------------------------------------------------
  // The code text

  /** The fixed code texts the generator writes around the embedded modules. Their
      contents are the .env helpers, the provider clients and the evaluation function
      modelled as code in EnvFile, RuntimeClient and VisionEval; the UI text is left
      out. pretty is json.dumps(..., indent=2). */
  datatype Texts = Texts(header: string, augmentation: string, visionModule: string, uiRest: string, pretty: Value -> string)

  const AppName: string := "runtime_app.py"
  const LlmSourcePath: Path := Path("src", "llm_providers.py")
  const VisionSourcePath: Path := Path("src", "vision_eval.py")
  const LlmSourceMissing: string := "LLM provider module not found: src/llm_providers.py"
  const VisionSourceMissing: string := "Vision evaluation module not found: src/vision_eval.py"
  const LlmMarker: string := "# === Embedded from src/llm_providers.py ==="
  const VisionMarker: string := "# === Embedded from src/vision_eval.py ==="
  /** The working directory, where src/, requirements.txt and .env.example are looked up. */
  const WorkDir: string := "."
  const Extras: seq<string> := ["requirements.txt", ".env.example"]

  /** _augment_llm_module_source: the real clients appended after a blank line. */
  function AugmentLlmModuleSource(source: string, augmentation: string): (r: string)
    ensures StartsWith(r, source)
    ensures r[|source|..] == "\n\n" + augmentation
  {
    source + "\n\n" + augmentation
  }

  /** _rewrite_run_vision_eval: the fixed module text, whatever the source was. */
  function RewriteRunVisionEval(source: string, texts: Texts): string {
    texts.visionModule
  }

  lemma RewriteIgnoresSource(a: string, b: string, texts: Texts)
    ensures RewriteRunVisionEval(a, texts) == RewriteRunVisionEval(b, texts) == texts.visionModule
  {
  }

  /** _load_llm_module_source / _load_vision_module_source: the stripped file text. */
  function LoadSource(files: map<Path, string>, path: Path, missing: string): (r: Result<string>)
    ensures path !in files <==> r == Err(FileNotFoundError(missing))
    ensures path in files ==> r == Ok(Strip(files[path]))
  {
    if path !in files then Err(FileNotFoundError(missing)) else Ok(Strip(files[path]))
  }

  /** The UI part: PROMPT_BUNDLE = <indented JSON of the sanitised bundle> and the rest. */
  function UiCode(texts: Texts, bundle: Object): string {
    "PROMPT_BUNDLE = " + texts.pretty(Obj(bundle)) + texts.uiRest
  }

  function AppParts(texts: Texts, llm: string, vision: string, bundle: Object): (parts: seq<string>) {
    [texts.header, LlmMarker, AugmentLlmModuleSource(llm, texts.augmentation), VisionMarker,
     RewriteRunVisionEval(vision, texts), UiCode(texts, bundle)]
  }

  /** "\n\n".join(app_code_parts) + "\n". */
  function ComposeApp(parts: seq<string>): string {
    Join("\n\n", parts) + "\n"
  }

  /** The app starts with the header, ends with a line break, and carries the augmented
      provider source, the evaluation module and the UI with the bundle. */
  lemma AppLayout(texts: Texts, llm: string, vision: string, bundle: Object)
    ensures var code := ComposeApp(AppParts(texts, llm, vision, bundle));
            && StartsWith(code, texts.header + "\n\n" + LlmMarker + "\n\n")
            && Contains(code, llm + "\n\n" + texts.augmentation)
            && Contains(code, texts.visionModule)
            && Contains(code, UiCode(texts, bundle))
            && code[|code| - 1] == '\n'
  {
    var sep := "\n\n";
    var parts := AppParts(texts, llm, vision, bundle);
    var joined := Join(sep, parts);
    JoinCons(sep, texts.header, parts[1..]);
    JoinCons(sep, LlmMarker, parts[2..]);
    assert [texts.header] + parts[1..] == parts;
    assert [LlmMarker] + parts[2..] == parts[1..];
    assert joined == texts.header + sep + LlmMarker + sep + Join(sep, parts[2..]);
    JoinContains(sep, parts, 2);
    JoinContains(sep, parts, 4);
    JoinContains(sep, parts, 5);
    ContainsExtended(joined, "\n", parts[2]);
    ContainsExtended(joined, "\n", parts[4]);
    ContainsExtended(joined, "\n", parts[5]);
  }

  /** A substring stays a substring when text is appended. */
  lemma ContainsExtended(s: string, more: string, sub: string)
    requires Contains(s, sub)
    ensures Contains(s + more, sub)
  {
    var i :| 0 <= i <= |s| && StartsWith(s[i..], sub);
    assert (s + more)[i..][..|sub|] == s[i..][..|sub|];
  }

  /** Copying requirements.txt and .env.example, when they exist, into the output
      directory; a copy onto itself raises SameFileError and stops the generator. */
  function CopyExtras(files: map<Path, string>, outDir: string, extras: seq<string>): (res: (Result<()>, map<Path, string>))
    decreases |extras|
  {
    if extras == [] then (Ok(()), files)
    else
      var src := Path(WorkDir, extras[0]);
      if src !in files then CopyExtras(files, outDir, extras[1..])
      else if outDir == WorkDir then (Err(SameFileError), files)
      else CopyExtras(files[Path(outDir, extras[0]) := files[src]], outDir, extras[1..])
  }

  /** generate_runtime_app, once the app path is chosen: the result and the files after. */
  function GenerateSpec(files: map<Path, string>, texts: Texts, bundle: Object, outDir: string, appPath: Path): (res: (Result<(Path, string)>, map<Path, string>)) {
    match Sanitized(bundle)
    case Err(f) => (Err(f), files)
    case Ok(clean) =>
      match LoadSource(files, LlmSourcePath, LlmSourceMissing)
      case Err(f) => (Err(f), files)
      case Ok(llm) =>
        match LoadSource(files, VisionSourcePath, VisionSourceMissing)
        case Err(f) => (Err(f), files)
        case Ok(vision) =>
          var written := files[appPath := ComposeApp(AppParts(texts, llm, vision, clean))];
          var (copied, after) := CopyExtras(written, outDir, Extras);
          if copied.Err? then (Err(copied.fault), after) else (Ok((appPath, appPath.name)), after)
  }

  /** generate_runtime_app. */
  method GenerateRuntimeApp(host: Host, texts: Texts, bundle: Object, outDir: string)
    returns (r: Result<(Path, string)>, ghost appPath: Path)
    modifies host
    ensures UniqueChoice(old(host.files).Keys, Path(outDir, AppName), appPath)
    ensures (r, host.files) == GenerateSpec(old(host.files), texts, bundle, outDir, appPath)
    ensures host.environ == old(host.environ)
  {
    var path := EnsureUniquePath(host, Path(outDir, AppName));
    appPath := path;
    var rel := path.name;
    var clean :- SanitizePromptBundle(bundle);
    if LlmSourcePath !in host.files {
      return Err(FileNotFoundError(LlmSourceMissing)), appPath;
    }
    var llm := AugmentLlmModuleSource(Strip(host.files[LlmSourcePath]), texts.augmentation);
    if VisionSourcePath !in host.files {
      return Err(FileNotFoundError(VisionSourceMissing)), appPath;
    }
    var vision := RewriteRunVisionEval(Strip(host.files[VisionSourcePath]), texts);
    var parts := [texts.header, LlmMarker, llm, VisionMarker, vision, UiCode(texts, clean)];
    host.files := host.files[path := Join("\n\n", parts) + "\n"];
    ghost var written := host.files;
    var i := 0;
    while i < |Extras|
      invariant 0 <= i <= |Extras|
      invariant CopyExtras(written, outDir, Extras) == CopyExtras(host.files, outDir, Extras[i..])
      invariant host.environ == old(host.environ)
    {
      var src := Path(WorkDir, Extras[i]);
      assert Extras[i..][0] == Extras[i] && Extras[i..][1..] == Extras[i + 1..];
      if src in host.files {
        if outDir == WorkDir {
          return Err(SameFileError), appPath;
        }
        host.files := host.files[Path(outDir, Extras[i]) := host.files[src]];
      }
      i := i + 1;
    }
    r := Ok((path, rel));
  }

  // ---------------------------------------------------------------------------
  // Properties of a run

  /** A successful run returns the chosen path and its file name, writes the composed
      app there, creates no file but the app and the two copy targets, leaves every
      other file as it was, and copies into each target the text of its source. */
  lemma GeneratedApp(files: map<Path, string>, texts: Texts, bundle: Object, outDir: string, appPath: Path)
    requires UniqueChoice(files.Keys, Path(outDir, AppName), appPath)
    requires GenerateSpec(files, texts, bundle, outDir, appPath).0.Ok?
    ensures var (r, after) := GenerateSpec(files, texts, bundle, outDir, appPath);
            && r.value == (appPath, appPath.name)
            && appPath !in files
            && appPath in after
            && after[appPath] == ComposeApp(AppParts(texts, Strip(files[LlmSourcePath]), Strip(files[VisionSourcePath]), Sanitized(bundle).value))
            && (forall p :: p in files && p != Path(outDir, Extras[0]) && p != Path(outDir, Extras[1]) ==> p in after && after[p] == files[p])
            && after.Keys <= files.Keys + {appPath, Path(outDir, Extras[0]), Path(outDir, Extras[1])}
            && (forall e :: e in Extras && Path(WorkDir, e) in files ==>
                  Path(outDir, e) in after && after[Path(outDir, e)] == files[Path(WorkDir, e)])
  {
    var clean := Sanitized(bundle).value;
    var llm := Strip(files[LlmSourcePath]);
    var vision := Strip(files[VisionSourcePath]);
    var written := files[appPath := ComposeApp(AppParts(texts, llm, vision, clean))];
    CopyExtrasEffect(written, outDir, Extras);
    AppNameNotExtra(files.Keys, outDir, appPath);
    assert Targets(outDir, Extras) == {Path(outDir, Extras[0]), Path(outDir, Extras[1])};
    assert forall e :: e in Extras ==> Path(WorkDir, e) != appPath;
  }

  lemma JoinCons(sep: string, x: string, rest: seq<string>)
    requires rest != []
    ensures Join(sep, [x] + rest) == x + sep + Join(sep, rest)
  {
    assert ([x] + rest)[1..] == rest;
  }

  /** The paths the extras are copied to. */
  function Targets(outDir: string, extras: seq<string>): set<Path> {
    set e | e in extras :: Path(outDir, e)
  }

  /** The copies create no file but their targets and change no file outside them. A
      run fails exactly when the output directory is the working directory and an
      extra exists there, and then before copying anything. A run that succeeds leaves
      in each target the text of its source, for every extra that exists. */
  lemma {:induction false} CopyExtrasEffect(files: map<Path, string>, outDir: string, extras: seq<string>)
    ensures var (res, after) := CopyExtras(files, outDir, extras);
            && files.Keys <= after.Keys <= files.Keys + Targets(outDir, extras)
            && (forall p :: p in files && p !in Targets(outDir, extras) ==> after[p] == files[p])
            && (res.Err? <==> outDir == WorkDir && exists e :: e in extras && Path(WorkDir, e) in files)
            && (res.Err? ==> res == Err(SameFileError) && after == files)
            && (res.Ok? ==> forall e :: e in extras && Path(WorkDir, e) in files ==>
                              Path(outDir, e) in after && after[Path(outDir, e)] == files[Path(WorkDir, e)])
    decreases |extras|
  {
    if extras != [] {
      var src := Path(WorkDir, extras[0]);
      var rest := extras[1..];
      assert forall e :: e in extras <==> e == extras[0] || e in rest;
      assert Targets(outDir, extras) == {Path(outDir, extras[0])} + Targets(outDir, rest);
      if src in files && outDir != WorkDir {
        var target := Path(outDir, extras[0]);
        var next := files[target := files[src]];
        CopyExtrasEffect(next, outDir, rest);
        assert forall e :: Path(WorkDir, e) in next ==> next[Path(WorkDir, e)] == files[Path(WorkDir, e)];
        var after := CopyExtras(next, outDir, rest).1;
        if CopyExtras(next, outDir, rest).0.Ok? {
          if target !in Targets(outDir, rest) {
            assert after[target] == next[target];
          }
        }
      } else if src !in files {
        CopyExtrasEffect(files, outDir, rest);
      }
    }
  }

  /** The app file never takes the name of one of the copied files. */
  lemma AppNameNotExtra(existing: set<Path>, outDir: string, appPath: Path)
    requires UniqueChoice(existing, Path(outDir, AppName), appPath)
    ensures appPath.name != Extras[0] && appPath.name != Extras[1]
  {
    var p := Path(outDir, AppName);
    AppNameParts();
    if p in existing {
      var k :| 1 <= k && appPath == Candidate(p, k) && forall j :: 1 <= j < k ==> Candidate(p, j) in existing;
      var n := appPath.name;
      assert n == "runtime_app" + "_" + NatToString(k) + ".py";
      assert n[|n| - 1] == 'y';
    }
  }

  /** runtime_app.py splits into the stem runtime_app and the suffix .py. */
  lemma AppNameParts()
    ensures StemOf(AppName) == "runtime_app" && SuffixOf(AppName) == ".py"
  {
    assert AppName == "runtime_app" + ".py";
    assert forall j :: 11 < j < |AppName| ==> AppName[j] != '.';
    RFindLast(AppName, '.', 11);
  }

  /** A missing provider or evaluation source raises FileNotFoundError before anything
      is written. */
  lemma MissingSourceWritesNothing(files: map<Path, string>, texts: Texts, bundle: Object, outDir: string, appPath: Path)
    requires Sanitized(bundle).Ok?
    requires LlmSourcePath !in files || VisionSourcePath !in files
    ensures var (r, after) := GenerateSpec(files, texts, bundle, outDir, appPath);
            && after == files
            && r == Err(FileNotFoundError(if LlmSourcePath !in files then LlmSourceMissing else VisionSourceMissing))
  {
  }

  /** Generating into the working directory, when requirements.txt or .env.example is
      there, raises SameFileError after the app file was written: the failure is not
      tolerated. */
  lemma SameDirectoryFails(files: map<Path, string>, texts: Texts, bundle: Object, appPath: Path)
    requires Sanitized(bundle).Ok? && LlmSourcePath in files && VisionSourcePath in files
    requires Path(WorkDir, Extras[0]) in files || Path(WorkDir, Extras[1]) in files
    ensures var (r, after) := GenerateSpec(files, texts, bundle, WorkDir, appPath);
            && r == Err(SameFileError)
            && appPath in after
  {
    var clean := Sanitized(bundle).value;
    var written := files[appPath := ComposeApp(AppParts(texts, Strip(files[LlmSourcePath]), Strip(files[VisionSourcePath]), clean))];
    assert Extras[1..][1..] == [];
  }
}
