/** The storage directory: keys as paths, the recursive clean-up of unreferenced files, and the
    worklist that measures usage.

    A path is the list of its components.  The tree holds plain files and directories only.
  */
module Storage {
  import opened Slots

  type Path = seq<string>

  datatype Stat = Stat(size: nat, modified: int)

  datatype Report = Report(filesRemoved: nat, bytesRemoved: nat)

  datatype StorageError = UsageOverflow

  datatype Measured<+T> = Done(value: T) | Failed(error: StorageError)

  // ---------------------------------------------------------------- keys and prefixes

  predicate Component(s: string) {
    s != "" && forall k :: 0 <= k < |s| ==> s[k] != '/'
  }

  predicate Clean(p: Path) {
    forall k :: 0 <= k < |p| ==> Component(p[k])
  }

  /** The key of a path: its components joined by slashes. */
  function Render(p: Path): string {
    if p == [] then ""
    else if |p| == 1 then p[0]
    else p[0] + "/" + Render(p[1..])
  }

  predicate StartsWith(s: string, prefix: string) {
    prefix <= s
  }

  /** The test the clean-up applies to a relative path. */
  predicate Protects(prefix: string, key: string) {
    key == prefix || StartsWith(key, prefix + "/")
  }

  /** Where the first component of a string ends. */
  function FirstSlash(s: string): (n: nat)
    ensures n <= |s| && (forall k :: 0 <= k < n ==> s[k] != '/') && (n < |s| ==> s[n] == '/')
  {
    if s == "" || s[0] == '/' then 0 else 1 + FirstSlash(s[1..])
  }

  lemma RenderHead(p: Path)
    requires Clean(p) && p != []
    ensures FirstSlash(Render(p)) == |p[0]| && Render(p)[..|p[0]|] == p[0]
    ensures |p| > 1 ==> Render(p) == p[0] + "/" + Render(p[1..]) && Render(p)[|p[0]| + 1..] == Render(p[1..])
    ensures |p| == 1 ==> Render(p) == p[0]
  {
    assert Component(p[0]);
    var s := Render(p);
    assert forall k :: 0 <= k < |p[0]| ==> s[k] == p[0][k];
    if |p| > 1 {
      assert s[|p[0]|] == '/';
    }
  }

  /** A rendered prefix protects a rendered path exactly when it is a prefix of its components: a
      sibling whose name merely starts the same way is not protected. */
  lemma {:induction false} ProtectsByComponents(prefix: Path, p: Path)
    requires Clean(prefix) && Clean(p) && prefix != [] && p != []
    ensures Protects(Render(prefix), Render(p)) <==> prefix <= p
    decreases |p|
  {
    RenderHead(prefix);
    RenderHead(p);
    var key, start := Render(p), Render(prefix);
    hide Render;
    if |prefix| == 1 {
      assert forall k :: 0 <= k < |start| ==> start[k] != '/';
      if Protects(start, key) {
        if key != start {
          assert key[|start|] == (start + "/")[|start|] == '/';
          assert forall k :: 0 <= k < |start| ==> key[k] == (start + "/")[k] == start[k];
          assert FirstSlash(key) == |start|;
          assert key[..|start|] == start;
        }
      }
    } else if |p| == 1 {
      SharesHead(start, key);
    } else {
      ProtectsByComponents(prefix[1..], p[1..]);
      SharesHead(start, key);
      assert prefix <= p <==> prefix[0] == p[0] && prefix[1..] <= p[1..];
      if prefix[0] == p[0] {
        TailsCompare(prefix[0] + "/", Render(prefix[1..]), Render(p[1..]));
      }
    }
  }

  lemma SharesHead(start: string, key: string)
    requires FirstSlash(start) < |start|
    ensures Protects(start, key) ==> FirstSlash(key) == FirstSlash(start) && key[..FirstSlash(start)] == start[..FirstSlash(start)]
  {
    if Protects(start, key) {
      assert forall k :: 0 <= k < |start| ==> key[k] == start[k] by {
        if key != start {
          assert forall k :: 0 <= k < |start| ==> key[k] == (start + "/")[k];
        }
      }
    }
  }

  lemma TailsCompare(front: string, prefix: string, key: string)
    ensures Protects(front + prefix, front + key) <==> Protects(prefix, key)
  {
    assert (front + prefix) + "/" == front + (prefix + "/");
    assert (front + key)[|front|..] == key && (front + prefix)[|front|..] == prefix;
    assert (front + (prefix + "/"))[|front|..] == prefix + "/";
    if prefix + "/" <= key {
      assert front + key == front + (prefix + "/") + key[|prefix| + 1..];
    }
    if front + (prefix + "/") <= front + key {
      assert key[..|prefix| + 1] == prefix + "/";
    }
  }

  lemma RenderIsInjective(p: Path, q: Path)
    requires Clean(p) && Clean(q) && p != [] && q != []
    ensures Render(p) == Render(q) ==> p == q
  {
    ProtectsByComponents(p, q);
    ProtectsByComponents(q, p);
    hide Render;
  }

  function Digit(d: nat): char
    requires d < 10
  {
    ['0', '1', '2', '3', '4', '5', '6', '7', '8', '9'][d]
  }

  function Decimal(n: nat): (s: string)
    ensures s != "" && forall k :: 0 <= k < |s| ==> '0' <= s[k] <= '9'
  {
    if n < 10 then [Digit(n)] else Decimal(n / 10) + [Digit(n % 10)]
  }

  function ReadDecimal(s: string): nat {
    if s == "" then 0
    else 10 * ReadDecimal(s[..|s| - 1]) + if '0' <= s[|s| - 1] <= '9' then (s[|s| - 1] - '0') as nat else 0
  }

  lemma {:induction false} DecimalReads(n: nat)
    ensures ReadDecimal(Decimal(n)) == n
  {
    assert forall d: nat :: d < 10 ==> (Digit(d) - '0') as nat == d;
    if n >= 10 {
      DecimalReads(n / 10);
      assert Decimal(n)[..|Decimal(n)| - 1] == Decimal(n / 10);
    } else {
      assert [Digit(n)][..0] == "";
      assert ReadDecimal("") == 0;
    }
  }

  lemma DecimalIsInjective(m: nat, n: nat)
    ensures Decimal(m) == Decimal(n) ==> m == n
  {
    DecimalReads(m);
    DecimalReads(n);
  }

  function AttemptPath(job: nat, attempt: nat): Path {
    ["outputs", "job-" + Decimal(job), "attempt-" + Decimal(attempt)]
  }

  function OutputPath(job: nat, attempt: nat, input: nat): Path {
    AttemptPath(job, attempt) + ["input-" + Decimal(input) + ".jpg"]
  }

  lemma PathsAreClean(job: nat, attempt: nat, input: nat)
    ensures Clean(AttemptPath(job, attempt)) && Clean(OutputPath(job, attempt, input))
  {
  }

  lemma NamedApart(front: string, m: nat, n: nat, back: string)
    ensures front + Decimal(m) + back == front + Decimal(n) + back ==> m == n
  {
    var x, y := front + Decimal(m) + back, front + Decimal(n) + back;
    if x == y {
      assert |Decimal(m)| == |Decimal(n)|;
      assert x[|front|..|front| + |Decimal(m)|] == Decimal(m) && y[|front|..|front| + |Decimal(n)|] == Decimal(n);
      DecimalIsInjective(m, n);
    }
  }

  /** The prefix of an attempt covers exactly the output keys of that attempt, so removing its tree
      or protecting it never reaches another attempt; and output keys are never shared. */
  lemma AttemptPrefixCovers(job: nat, attempt: nat, job': nat, attempt': nat, input: nat, input': nat)
    ensures Protects(Render(AttemptPath(job, attempt)), Render(OutputPath(job', attempt', input'))) <==> job == job' && attempt == attempt'
    ensures Render(OutputPath(job, attempt, input)) == Render(OutputPath(job', attempt', input'))
            ==> job == job' && attempt == attempt' && input == input'
  {
    var prefix, p, q := AttemptPath(job, attempt), OutputPath(job, attempt, input), OutputPath(job', attempt', input');
    PathsAreClean(job, attempt, input);
    PathsAreClean(job', attempt', input');
    hide Render;
    ProtectsByComponents(prefix, q);
    RenderIsInjective(p, q);
    NamedApart("job-", job, job', "");
    NamedApart("attempt-", attempt, attempt', "");
    NamedApart("input-", input, input', ".jpg");
    hide Decimal;
    assert forall x: string :: x + "" == x;
    if prefix <= q {
      assert prefix[1] == q[1] && prefix[2] == q[2];
    }
    if p == q {
      assert p[1] == q[1] && p[2] == q[2] && p[3] == q[3];
    }
  }
}
