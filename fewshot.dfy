/** The few-shot store: an append-only JSON Lines file of records, read back with an
    optional limit on the number of raw lines considered. */
module FewShot {
  import opened Text
  import opened Json
  import opened Host

  /** The default location, data/few_shots.jsonl. */
  const DefaultPath: Path := Path("data", "few_shots.jsonl")

  /** A text the store can append to without gluing two records together: empty, or
      ending with a line break. */
  predicate Terminated(text: string) {
    text == [] || text[|text| - 1] == '\n'
  }

  /** What one line contributes to load_all: nothing when it is blank after stripping or
      json.loads rejects it, otherwise the decoded value. */
  function LineRecord(codec: Codec, line: string): (r: seq<Value>)
    ensures |r| <= 1
    ensures Strip(line) == [] ==> r == []
    ensures Strip(line) != [] ==> (r == [] <==> codec.decode(Strip(line)).None?)
    ensures r != [] ==> codec.decode(Strip(line)) == Some(r[0])
  {
    var s := Strip(line);
    if s == [] then []
    else match codec.decode(s)
      case None => []
      case Some(v) => [v]
  }

  /** The records of a sequence of lines, in line order. */
  function Records(codec: Codec, ls: seq<string>): seq<Value>
    decreases |ls|
  {
    if ls == [] then [] else Records(codec, ls[..|ls| - 1]) + LineRecord(codec, ls[|ls| - 1])
  }

  /** The lines load_all looks at: those with index below the limit, when there is one. */
  function Considered(ls: seq<string>, limit: Option<int>): (r: seq<string>)
    ensures limit.None? ==> r == ls
    ensures limit.Some? ==> r == ls[..if limit.value < 0 then 0 else if limit.value < |ls| then limit.value else |ls|]
  {
    if limit.None? then ls
    else if limit.value <= 0 then []
    else if limit.value < |ls| then ls[..limit.value]
    else ls
  }

  /** load_all(limit): [] without a file, otherwise the records of the considered lines. */
  function Load(codec: Codec, files: map<Path, string>, path: Path, limit: Option<int>): seq<Value> {
    if path !in files then [] else Records(codec, Considered(Lines(files[path]), limit))
  }

  /** The file after append(record): the serialised record and a line break at the end,
      the file being created when missing. */
  function Appended(codec: Codec, files: map<Path, string>, path: Path, record: Object): (r: map<Path, string>)
    ensures r.Keys == files.Keys + {path}
    ensures forall p :: p in files && p != path ==> r[p] == files[p]
    ensures path in files ==> r[path] == files[path] + codec.encode(Obj(record)) + "\n"
    ensures path !in files ==> r[path] == codec.encode(Obj(record)) + "\n"
  {
    files[path := (if path in files then files[path] else "") + codec.encode(Obj(record)) + "\n"]
  }

  class FewShotStore {
    const path: Path
    const host: Host

    /** __init__: remembers the path and creates an empty file only when none exists. */
    constructor (host: Host, path: Path)
      modifies host
      ensures this.host == host && this.path == path
      ensures host.files == if path in old(host.files) then old(host.files) else old(host.files)[path := ""]
      ensures host.environ == old(host.environ)
    {
      this.host := host;
      this.path := path;
      new;
      if path !in host.files {
        host.files := host.files[path := ""];
      }
    }

    /** append: one serialised record and a line break at the end of the file. */
    method Append(codec: Codec, record: Object)
      modifies host
      ensures host.files == Appended(codec, old(host.files), path, record)
      ensures host.environ == old(host.environ)
    {
      var text := if path in host.files then host.files[path] else "";
      host.files := host.files[path := text + codec.encode(Obj(record)) + "\n"];
    }

    /** load_all: the loop over enumerate(f), stopping at the limit, skipping blank and
        undecodable lines. */
    method LoadAll(codec: Codec, limit: Option<int>) returns (out: seq<Value>)
      ensures out == Load(codec, host.files, path, limit)
    {
      out := [];
      if path !in host.files {
        return;
      }
      out := LoadLines(codec, Lines(host.files[path]), limit);
    }
  }

  /** The loop of load_all over the lines of the file. */
  method LoadLines(codec: Codec, lines: seq<string>, limit: Option<int>) returns (out: seq<Value>)
    ensures out == Records(codec, Considered(lines, limit))
  {
    out := [];
    var i := 0;
    while i < |lines|
      invariant 0 <= i <= |lines|
      invariant out == Records(codec, lines[..i])
      invariant limit.Some? ==> i <= (if limit.value < 0 then 0 else limit.value)
    {
      if limit.Some? && i >= limit.value {
        break;
      }
      RecordsStep(codec, lines, i);
      ghost var before := out;
      var line := Strip(lines[i]);
      if line != [] {
        match codec.decode(line) {
          case None =>
          case Some(v) => out := out + [v];
        }
      }
      assert out == before + LineRecord(codec, lines[i]);
      i := i + 1;
    }
    assert lines[..|lines|] == lines;
  }

  /** One more line adds what that line contributes. */
  lemma RecordsStep(codec: Codec, ls: seq<string>, i: nat)
    requires i < |ls|
    ensures Records(codec, ls[..i + 1]) == Records(codec, ls[..i]) + LineRecord(codec, ls[i])
  {
    assert ls[..i + 1][..i] == ls[..i];
  }

  // ---------------------------------------------------------------------------
  // Properties

  /** The records of consecutive chunks of lines are consecutive: record order is line
      order. */
  lemma {:induction false} RecordsAppend(codec: Codec, a: seq<string>, b: seq<string>)
    ensures Records(codec, a + b) == Records(codec, a) + Records(codec, b)
    decreases |b|
  {
    if b == [] {
      assert a + b == a;
    } else {
      var b' := b[..|b| - 1];
      assert (a + b)[..|a + b| - 1] == a + b';
      RecordsAppend(codec, a, b');
    }
  }

  /** At most one record per line. */
  lemma {:induction false} RecordsBound(codec: Codec, ls: seq<string>)
    ensures |Records(codec, ls)| <= |ls|
    decreases |ls|
  {
    if ls != [] {
      RecordsBound(codec, ls[..|ls| - 1]);
    }
  }

  /** With a limit, at most that many records come back. */
  lemma LoadBound(codec: Codec, files: map<Path, string>, path: Path, limit: int)
    ensures |Load(codec, files, path, Some(limit))| <= (if limit < 0 then 0 else limit)
  {
    if path in files {
      RecordsBound(codec, Considered(Lines(files[path]), Some(limit)));
    }
  }

  /** A limit cuts the line sequence before skipping: what is loaded with a limit is a
      prefix of what is loaded without one. */
  lemma LimitedIsPrefix(codec: Codec, files: map<Path, string>, path: Path, limit: int)
    ensures var all := Load(codec, files, path, None);
            var some := Load(codec, files, path, Some(limit));
            |some| <= |all| && all[..|some|] == some
  {
    if path in files {
      var ls := Lines(files[path]);
      var c := Considered(ls, Some(limit));
      assert ls == c + ls[|c|..];
      RecordsAppend(codec, c, ls[|c|..]);
    }
  }

  /** A blank line counts against the limit: with the limit at one and a blank first
      line, nothing comes back, whatever follows. */
  lemma BlankLineCountsAgainstLimit(codec: Codec, files: map<Path, string>, path: Path, rest: string)
    requires path in files && files[path] == "\n" + rest
    ensures Load(codec, files, path, Some(1)) == []
  {
    var ls := Lines("\n" + rest);
    FindAfterPrefix("", "\n" + rest, '\n');
    assert ls[0] == "";
    assert Considered(ls, Some(1)) == [""];
    assert [""][..0] == [];
    assert Records(codec, [""]) == Records(codec, []) + LineRecord(codec, "");
  }

  /** Creating the store never truncates an existing file: the records there stay. */
  lemma InitKeepsRecords(codec: Codec, files: map<Path, string>, path: Path, limit: Option<int>)
    ensures var after := if path in files then files else files[path := ""];
            Load(codec, after, path, limit) == Load(codec, files, path, limit)
  {
  }

  /** With a lawful, one-line JSON codec, appending a record to a line-terminated
      file adds exactly that record at the end of what load_all returns. */
  lemma AppendThenLoad(codec: Codec, files: map<Path, string>, path: Path, record: Object)
    requires Lawful(codec) && OneLine(codec)
    requires path in files ==> Terminated(files[path])
    ensures Load(codec, Appended(codec, files, path, record), path, None)
            == Load(codec, files, path, None) + [Obj(record)]
  {
    var text := if path in files then files[path] else "";
    var line := codec.encode(Obj(record));
    var after := Appended(codec, files, path, record);
    assert '\n' !in line && IsStripped(line);
    assert after[path] == text + line + "\n";
    LinesAppend(text, line);
    var before := Lines(text);
    assert Load(codec, after, path, None) == Records(codec, before + [line]);
    assert Load(codec, files, path, None) == Records(codec, before);
    RecordsAppend(codec, before, [line]);
    assert [line][..0] == [];
    StripStripped(line);
    assert codec.decode(line) == Some(Obj(record));
    assert Records(codec, [line]) == LineRecord(codec, line) == [Obj(record)];
  }

}
