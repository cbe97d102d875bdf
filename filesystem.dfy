/** The file system as the build sees it: the text of the files it can read,
    and every operation it has performed, in order. */
module FileSystem {
  import opened Wrappers
  import opened Errors

  /** One call into fs / fs-extra. */
  datatype IoOp =
    | Mkdirp(path: string)              // mkdirpSync
    | Mkdir(path: string)               // mkdir (asynchronous)
    | Write(path: string, body: string) // writeFileSync
    | CopyDir(from: string, to: string) // copySync
    | Remove(path: string)              // remove (asynchronous, not awaited)

  datatype Disk = Disk(files: map<string, string>, log: seq<IoOp>)

  /** readFileSync(path, "utf8"): throws for a path that is not a readable file. */
  function ReadFile(d: Disk, path: string): (r: Result<string, Error>)
    ensures r.Success? <==> path in d.files
    ensures r.Success? ==> r.value == d.files[path]
    ensures r.Failure? ==> r.error == ReadFailed(path)
  {
    if path in d.files then Success(d.files[path]) else Failure(ReadFailed(path))
  }

  /** writeFileSync(path, body). */
  function WriteFile(d: Disk, path: string, body: string): Disk {
    Disk(d.files[path := body], d.log + [Write(path, body)])
  }

  /** An operation whose effect on file contents the model does not track. */
  function Perform(d: Disk, op: IoOp): Disk
    requires !op.Write?
  {
    d.(log := d.log + [op])
  }

  /** A file reads back as what was last written to it; other files are unaffected. */
  lemma ReadAfterWrite(d: Disk, p: string, q: string, body: string)
    ensures ReadFile(WriteFile(d, p, body), q) == if p == q then Success(body) else ReadFile(d, q)
  {
  }

  /** The paths written, in order. */
  function Written(log: seq<IoOp>): (r: seq<string>)
    ensures |r| <= |log|
  {
    if log == [] then []
    else if log[|log| - 1].Write? then Written(log[..|log| - 1]) + [log[|log| - 1].path]
    else Written(log[..|log| - 1])
  }

  lemma {:induction false} WrittenAppend(a: seq<IoOp>, b: seq<IoOp>)
    ensures Written(a + b) == Written(a) + Written(b)
    decreases |b|
  {
    if b == [] {
      assert a + b == a;
    } else {
      assert (a + b)[..|a + b| - 1] == a + b[..|b| - 1];
      WrittenAppend(a, b[..|b| - 1]);
    }
  }

  /** `after` extends `before` with directory creations and file writes only. */
  predicate Builds(before: seq<IoOp>, after: seq<IoOp>) {
    |before| <= |after| && after[..|before|] == before &&
    forall k :: |before| <= k < |after| ==> after[k].Mkdirp? || after[k].Write?
  }

  lemma BuildsTrans(a: seq<IoOp>, b: seq<IoOp>, c: seq<IoOp>)
    requires Builds(a, b) && Builds(b, c)
    ensures Builds(a, c)
  {
    assert c[..|a|] == c[..|b|][..|a|];
  }

  /** `after` extends `before` without removing anything. */
  predicate Keeps(before: seq<IoOp>, after: seq<IoOp>) {
    |before| <= |after| && after[..|before|] == before &&
    forall k :: |before| <= k < |after| ==> !after[k].Remove?
  }

  lemma BuildsKeeps(a: seq<IoOp>, b: seq<IoOp>)
    requires Builds(a, b)
    ensures Keeps(a, b)
  {
  }

  lemma KeepsTrans(a: seq<IoOp>, b: seq<IoOp>, c: seq<IoOp>)
    requires Keeps(a, b) && Keeps(b, c)
    ensures Keeps(a, c)
  {
    assert c[..|a|] == c[..|b|][..|a|];
  }

  lemma KeepsRefl(a: seq<IoOp>)
    ensures Keeps(a, a)
  {
    assert a[..|a|] == a;
  }
}
