/** Launching a pipeline: processes, descriptor tables, and pipes whose numbers are reused. */
module Pipeline {

  datatype End = File(id: nat) | ReadEnd(pipe: nat) | WriteEnd(pipe: nat)

  type Table = map<nat, End>

  const STDIN := 0
  const STDOUT := 1
  const STDERR := 2

  /** x is an end of a pipe that was made after the first base ones. */
  predicate Later(base: nat, x: End) { !x.File? && x.pipe >= base }

  /** Input and outputs that a child can take over: no output is the standard input, and the
      input is no output unless it is one of the standard descriptors. */
  predicate Usable(infile: nat, outfile: nat, errfile: nat) {
    && outfile != STDIN && errfile != STDIN
    && (infile > STDERR ==> infile != outfile && infile != errfile)
  }

  /** What output number std gets from descriptor x: 0 is the new standard input by then, and
      an input descriptor is already closed, which leaves std as it was. */
  function Given(t: Table, infile: nat, x: nat, std: nat): End
    requires infile in t && x in t && std in t
  {
    if x == STDIN then t[infile] else if x == infile && infile > STDERR then t[std] else t[x]
  }

  /** The table when the standard input is in place. */
  ghost function AfterInput(t: Table, infile: nat): Table
    requires infile in t
  {
    var d := t[STDIN := t[infile]];
    if infile > STDERR then d - {infile} else d
  }

  class Process {
    var fds: Table

    /** fork copies the table. */
    constructor (fds: Table)
      ensures this.fds == fds
    {
      this.fds := fds;
    }

    /** dup2 of a closed descriptor fails and changes nothing. */
    method Dup2(from: nat, to: nat)
      modifies this
      ensures fds == if from in old(fds) then old(fds)[to := old(fds)[from]] else old(fds)
    {
      if from in fds {
        fds := fds[to := fds[from]];
      }
    }

    /** Closing a closed descriptor changes nothing. */
    method Close(fd: nat)
      modifies this
      ensures fds == old(fds) - {fd}
    {
      fds := fds - {fd};
    }

    method CloseFileDescriptor(fd: nat)
      modifies this
      ensures fds == if fd == STDOUT || fd == STDERR then old(fds) else old(fds) - {fd}
    {
      if fd != STDOUT && fd != STDERR {
        Close(fd);
      }
    }

    /** The child reads infile and writes outfile and errfile, under the standard numbers
        only; an errfile of 1 follows the new standard output. */
    method SetUpFilesDescriptor(infile: nat, outfile: nat, errfile: nat)
      requires infile in fds && outfile in fds && errfile in fds
      requires STDIN in fds && STDOUT in fds && STDERR in fds
      modifies this
      ensures STDIN in fds <==> outfile != STDIN && errfile != STDIN
      ensures STDIN in fds ==> fds[STDIN] == old(fds)[infile]
      ensures STDOUT in fds && fds[STDOUT] == Given(old(fds), infile, outfile, STDOUT)
      ensures STDERR in fds
      ensures fds[STDERR] == if errfile == STDOUT then fds[STDOUT] else Given(old(fds), infile, errfile, STDERR)
      ensures forall x | x > STDERR :: x in fds <==> x in old(fds) && x != infile && x != outfile && x != errfile
      ensures forall x | x > STDERR && x in fds :: fds[x] == old(fds)[x]
    {
      if infile != STDIN {
        Dup2(infile, STDIN);
        CloseFileDescriptor(infile);
      }
      assert fds == AfterInput(old(fds), infile);
      SetUpOutputs(outfile, errfile);
    }

    method SetUpOutputs(outfile: nat, errfile: nat)
      requires STDIN in fds && STDOUT in fds && STDERR in fds
      modifies this
      ensures STDIN in fds <==> outfile != STDIN && errfile != STDIN
      ensures STDIN in fds ==> fds[STDIN] == old(fds)[STDIN]
      ensures STDOUT in fds && fds[STDOUT] == old(fds)[if outfile in old(fds) then outfile else STDOUT]
      ensures STDERR in fds
      ensures fds[STDERR] == if errfile == STDOUT then fds[STDOUT]
                             else old(fds)[if errfile in old(fds) then errfile else STDERR]
      ensures forall x | x > STDERR :: x in fds <==> x in old(fds) && x != outfile && x != errfile
      ensures forall x | x > STDERR && x in fds :: fds[x] == old(fds)[x]
    {
      if outfile == errfile {
        if errfile != STDERR {
          Dup2(errfile, STDERR);
        }
        if outfile != STDOUT {
          Dup2(outfile, STDOUT);
        }
        CloseFileDescriptor(outfile);
      } else {
        if outfile != STDOUT {
          Dup2(outfile, STDOUT);
          CloseFileDescriptor(outfile);
        }
        if errfile != STDERR {
          Dup2(errfile, STDERR);
          CloseFileDescriptor(errfile);
        }
      }
    }
  }

  /** What the i-th of n children holds when its program starts: the neighbouring pipe ends
      under the standard numbers and, in a higher descriptor, the read end of its own
      output pipe, but no other end of these pipes. */
  ghost predicate Wired(shell: Table, job: Job, base: nat, n: nat, i: nat, child: Table)
    requires job.stdin in shell && job.stdout in shell && job.stderr in shell
  {
    var out := if i == n - 1 then shell[job.stdout] else WriteEnd(base + i);
    && STDIN in child && child[STDIN] == (if i == 0 then shell[job.stdin] else ReadEnd(base + i - 1))
    && STDOUT in child && child[STDOUT] == out
    && STDERR in child && child[STDERR] == (if job.stderr == STDOUT then out else shell[job.stderr])
    && (i < n - 1 ==> exists x | x in child :: x > STDERR && child[x] == ReadEnd(base + i))
    && forall x | x > STDERR && x in child ::
         if Later(base, child[x]) then i < n - 1 && child[x] == ReadEnd(base + i)
         else x in shell && child[x] == shell[x]
  }

  /** All the children of a launched job; the shell's own table has none of the pipes. */
  ghost predicate Launched(shell: Table, job: Job, base: nat, children: seq<Table>)
    requires job.stdin in shell && job.stdout in shell && job.stderr in shell
  {
    && STDIN in shell && STDOUT in shell && STDERR in shell
    && (forall x | x in shell :: !Later(base, shell[x]))
    && forall i | 0 <= i < |children| :: Wired(shell, job, base, |children|, i, children[i])
  }

  /** The table at the i-th fork: the shell's, with the pipe to the left and the new pipe. */
  ghost function Forked(t: Table, base: nat, n: nat, i: nat, infile: nat, outfile: nat, own: nat): Table {
    var left := if i == 0 then t else t[infile := ReadEnd(base + i - 1)];
    if i == n - 1 then left else left[own := ReadEnd(base + i)][outfile := WriteEnd(base + i)]
  }

  lemma Unused(t: Table) returns (fd: nat)
    ensures fd !in t
  {
    fd := Above(t.Keys);
    assert fd !in t.Keys;
  }

  lemma {:induction false} Above(s: set<nat>) returns (top: nat)
    ensures forall x | x in s :: x < top
  {
    if s == {} {
      top := 0;
    } else {
      var x :| x in s;
      var rest := Above(s - {x});
      assert s == s - {x} + {x};
      top := if rest > x then rest else x + 1;
    }
  }

  class Job {
    const stdin: nat
    const stdout: nat
    const stderr: nat
    const shell: Process
    var pipes: nat
    var children: seq<Table>

    constructor (shell: Process, pipes: nat, stdin: nat, stdout: nat, stderr: nat)
      ensures this.shell == shell && this.pipes == pipes && children == []
      ensures this.stdin == stdin && this.stdout == stdout && this.stderr == stderr
    {
      this.shell := shell;
      this.pipes := pipes;
      this.stdin := stdin;
      this.stdout := stdout;
      this.stderr := stderr;
      children := [];
    }

    /** pipe: any two descriptors that are not in use. */
    method Pipe() returns (r: nat, w: nat)
      modifies shell, this`pipes
      ensures r !in old(shell.fds) && w !in old(shell.fds) && r != w
      ensures shell.fds == old(shell.fds)[r := ReadEnd(old(pipes))][w := WriteEnd(old(pipes))]
      ensures pipes == old(pipes) + 1
    {
      ghost var free := Unused(shell.fds);
      r :| r !in shell.fds;
      shell.fds := shell.fds[r := ReadEnd(pipes)];
      free := Unused(shell.fds);
      w :| w !in shell.fds;
      shell.fds := shell.fds[w := WriteEnd(pipes)];
      pipes := pipes + 1;
    }

    /** Forks one child and sets its descriptors up; own is the read end of its pipe. */
    method ForkChild(ghost t: Table, ghost base: nat, ghost n: nat, ghost i: nat, infile: nat, outfile: nat,
                     ghost own: nat)
      requires STDIN in t && STDOUT in t && STDERR in t && (forall x | x in t :: !Later(base, t[x]))
      requires stdin in t && stdout in t && stderr in t && Usable(stdin, stdout, stderr)
      requires i < n
      requires if i == 0 then infile == stdin else infile !in t
      requires if i == n - 1 then outfile == stdout else own !in t && outfile !in t && own != outfile
      requires i < n - 1 ==> infile != own && infile != outfile
      requires shell.fds == Forked(t, base, n, i, infile, outfile, own)
      modifies this`children
      ensures |children| == |old(children)| + 1 && children[..|old(children)|] == old(children)
      ensures Wired(t, this, base, n, i, children[|old(children)|])
    {
      assert forall x | x in shell.fds && x != infile && x != outfile && (i == n - 1 || x != own) ::
               x in t && shell.fds[x] == t[x];
      assert i < n - 1 ==> own !in {infile, outfile, stderr} && shell.fds[own] == ReadEnd(base + i);
      var child := new Process(shell.fds);
      child.SetUpFilesDescriptor(infile, outfile, stderr);
      assert i < n - 1 ==> own in child.fds && child.fds[own] == ReadEnd(base + i);
      children := children + [child.fds];
    }

    /** The loop over the processes, when every pipe and fork succeeds. */
    method LaunchJob(n: nat)
      requires n >= 2 && children == []
      requires STDIN in shell.fds && STDOUT in shell.fds && STDERR in shell.fds
      requires stdin in shell.fds && stdout in shell.fds && stderr in shell.fds && Usable(stdin, stdout, stderr)
      requires forall x | x in shell.fds :: !Later(pipes, shell.fds[x])
      modifies this, shell
      ensures |children| == n && Launched(old(shell.fds), this, old(pipes), children)
      ensures shell.fds == old(shell.fds)
      ensures pipes == old(pipes) + n - 1
    {
      hide Wired;
      ghost var t, base := shell.fds, pipes;
      var infile := stdin;
      var mypipe: (nat, nat) := (0, 0);
      var i := 0;
      while i < n
        invariant 0 <= i <= n && |children| == i
        invariant pipes == base + if i < n then i else n - 1
        invariant i == 0 ==> infile == stdin && shell.fds == t
        invariant i > 0 ==> infile == mypipe.0 && infile !in t
        invariant 0 < i < n ==> shell.fds == t[infile := ReadEnd(base + i - 1)]
        invariant i == n ==> shell.fds == t
        invariant forall k | 0 <= k < i :: Wired(t, this, base, n, k, children[k])
      {
        var outfile;
        if i != n - 1 {
          var r, w := Pipe();
          mypipe := (r, w);
          outfile := mypipe.1;
        } else {
          outfile := stdout;
        }
        ForkChild(t, base, n, i, infile, outfile, mypipe.0);
        if infile != stdin {
          shell.Close(infile);
        }
        if outfile != stdout {
          shell.Close(outfile);
        }
        infile := mypipe.0;
        i := i + 1;
      }
      if infile != stdin {
        shell.Close(infile);
      }
    }
  }

  // ----- who holds which end -----

  ghost predicate Holds(t: Table, x: End) {
    exists fd :: fd in t && t[fd] == x
  }

  /** Only child k can write to pipe k: its reader sees the end of the input as soon as
      child k is gone. */
  lemma OneWriter(shell: Table, job: Job, base: nat, children: seq<Table>, k: nat, i: nat)
    requires job.stdin in shell && job.stdout in shell && job.stderr in shell
    requires Launched(shell, job, base, children) && k < |children| - 1 && i < |children|
    ensures Holds(children[i], WriteEnd(base + k)) <==> i == k
    ensures !Holds(shell, WriteEnd(base + k))
  {
    var c := children[i];
    assert Wired(shell, job, base, |children|, i, c);
    if i == k { assert c[STDOUT] == WriteEnd(base + k); }
    forall fd | fd in c && c[fd] == WriteEnd(base + k) ensures i == k {
      if fd > STDERR { assert Later(base, c[fd]); }
    }
  }

  /** The read end of pipe k is held by child k + 1, and also by child k itself, which
      therefore never sees a broken pipe. */
  lemma TwoReaders(shell: Table, job: Job, base: nat, children: seq<Table>, k: nat, i: nat)
    requires job.stdin in shell && job.stdout in shell && job.stderr in shell
    requires Launched(shell, job, base, children) && k < |children| - 1 && i < |children|
    ensures Holds(children[i], ReadEnd(base + k)) <==> i == k || i == k + 1
    ensures !Holds(shell, ReadEnd(base + k))
  {
    var c := children[i];
    assert Wired(shell, job, base, |children|, i, c);
    if i == k + 1 { assert c[STDIN] == ReadEnd(base + k); }
    forall fd | fd in c && c[fd] == ReadEnd(base + k) ensures i == k || i == k + 1 {
      if fd > STDERR { assert Later(base, c[fd]); }
    }
  }
}
