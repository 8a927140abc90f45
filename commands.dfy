/**
 * The argument vectors of the compile and link processes, the joining of a
 * target's compile flags into one string, and the progress percentage shown
 * before each process is started.
 */
module Commands {
  import opened Text
  import opened Decimal
  import opened Paths
  import opened Cache
  import opened Planning

  const CompileFlag: string := "-c"
  const CompileOutputFlag: string := "-o"
  const LinkerOutputFlag: string := "-o"

  /**
   * `build_command_for_compile_job`: the compiler, then the whole flags string
   * as one argument (even when it is empty), then each whitespace-separated
   * flag, then "-c", "-o", the object file and the source file.
   */
  function CompileCommand(compiler: string, p: CompileParameters): (r: seq<string>)
    ensures |r| == 6 + |Tokenize(p.compileFlags)|
    ensures r[0] == compiler && r[1] == p.compileFlags
    ensures r[2..|r| - 4] == Tokenize(p.compileFlags)
    ensures r[|r| - 4..] == [CompileFlag, CompileOutputFlag, Render(p.objectFile), Render(p.sourceFile)]
  {
    [compiler, p.compileFlags] + Tokenize(p.compileFlags) + [CompileFlag, CompileOutputFlag, Render(p.objectFile), Render(p.sourceFile)]
  }

  /** `build_command_for_link_job`: the linker, "-o", the target file and every object file in order; the link flags are not used. */
  function LinkCommand(linker: string, l: LinkParameters): (r: seq<string>)
    ensures |r| == 3 + |l.objectFiles|
  {
    [linker, LinkerOutputFlag, Render(l.targetFile)] + seq(|l.objectFiles|, k requires 0 <= k < |l.objectFiles| => Render(l.objectFiles[k]))
  }

  /**
   * The compiler receives what the target declared: for flags that are
   * whitespace-free tokens joined by `prepare_target_compilation`, the
   * arguments after the joined string are exactly those flags in order, and
   * the object and source arguments name the record's paths.
   */
  lemma CompileCommandCarriesFlags(compiler: string, p: CompileParameters, flags: seq<string>)
    requires p.compileFlags == Join(flags, ' ')
    requires forall i :: 0 <= i < |flags| ==> IsToken(flags[i])
    requires WellFormed(p.objectFile) && WellFormed(p.sourceFile)
    ensures var r := CompileCommand(compiler, p);
            && r == [compiler, Join(flags, ' ')] + flags + [CompileFlag, CompileOutputFlag, Render(p.objectFile), Render(p.sourceFile)]
            && Parse(r[|r| - 2]) == p.objectFile
            && Parse(r[|r| - 1]) == p.sourceFile
  {
    TokenizeJoin(flags);
    ParseRender(p.objectFile);
    ParseRender(p.sourceFile);
  }

  /** A target without compile flags still passes one empty argument right after the compiler. */
  lemma EmptyFlagsArgument(compiler: string, p: CompileParameters)
    requires p.compileFlags == Join([], ' ')
    ensures CompileCommand(compiler, p)[1] == ""
    ensures |CompileCommand(compiler, p)| == 6
  {
    assert Tokenize("") == [] by {
      assert SplitWhere("", IsSpace) == [""];
    }
  }

  /** The linker receives the target file and every object file, each readable back as the path it was rendered from. */
  lemma LinkCommandCarriesObjects(linker: string, l: LinkParameters)
    requires WellFormed(l.targetFile) && forall k :: 0 <= k < |l.objectFiles| ==> WellFormed(l.objectFiles[k])
    ensures var r := LinkCommand(linker, l);
            && r[0] == linker && r[1] == LinkerOutputFlag && Parse(r[2]) == l.targetFile
            && forall k :: 0 <= k < |l.objectFiles| ==> Parse(r[3 + k]) == l.objectFiles[k]
  {
    ParseRender(l.targetFile);
    forall k | 0 <= k < |l.objectFiles| ensures Parse(LinkCommand(linker, l)[3 + k]) == l.objectFiles[k] {
      ParseRender(l.objectFiles[k]);
    }
  }

  /**
   * The loop of `prepare_target_compilation` that joins the flags: each flag
   * is appended, followed by one space unless it is the last.
   */
  method JoinFlags(flags: seq<string>) returns (s: string)
    ensures s == Join(flags, ' ')
  {
    s := "";
    var i := 0;
    while i < |flags|
      invariant 0 <= i <= |flags|
      invariant i < |flags| ==> s == Join(flags[..i], ' ') + (if i > 0 then " " else "")
      invariant i == |flags| ==> s == Join(flags, ' ')
    {
      s := s + flags[i];
      if i < |flags| - 1 {
        s := s + " ";
      }
      ghost var done := flags[..i + 1];
      if i == 0 {
        assert done == [flags[0]];
      } else {
        JoinSnoc(flags[..i], flags[i], ' ');
        assert done == flags[..i] + [flags[i]];
      }
      if i + 1 == |flags| {
        assert done == flags;
      }
      i := i + 1;
    }
  }

  /** Reduction of an unsigned value modulo 2^64, as `size_t` arithmetic wraps. */
  function Wrap64(x: nat): (r: nat)
    ensures r < U64Modulus
    ensures x < U64Modulus ==> r == x
  {
    x % U64Modulus
  }

  /** `static_cast<int>` of a 64-bit unsigned value: the low 32 bits, read as two's complement. */
  function ToInt32(x: nat): (r: int)
    ensures -0x8000_0000 <= r < 0x8000_0000
    ensures x < 0x8000_0000 ==> r == x
  {
    var low := x % 0x1_0000_0000;
    if low < 0x8000_0000 then low else low - 0x1_0000_0000
  }

  /** `compute_percent(completed, pending, jobs_count)`: `(completed + pending + 1) * 100 / jobs_count` in `size_t`, cast to `int`. */
  function ComputePercent(completed: nat, pending: nat, count: nat): int
    requires 0 < count < U64Modulus
  {
    ToInt32(Wrap64(Wrap64(completed + pending + 1) * 100) / count)
  }

  /** Multiplication by a natural number keeps order. */
  lemma {:induction false} MulLeft(a: nat, b: nat, c: nat)
    requires a <= b
    ensures a * c <= b * c
    decreases c
  {
    if c > 0 {
      MulLeft(a, b, c - 1);
      assert a * c == a * (c - 1) + a;
      assert b * c == b * (c - 1) + b;
    }
  }

  /** A quotient is at most `q` when the dividend is at most `q` times the divisor. */
  lemma DivAtMost(v: nat, c: nat, q: nat)
    requires c > 0 && v <= c * q
    ensures v / c <= q
  {
    var d := v / c;
    if d > q {
      MulLeft(q + 1, d, c);
      assert false;
    }
  }

  /** A quotient is below `q` when the dividend is below `q` times the divisor. */
  lemma DivBelow(v: nat, c: nat, q: nat)
    requires c > 0 && v < c * q
    ensures v / c < q
  {
    var d := v / c;
    if d >= q {
      MulLeft(q, d, c);
      assert false;
    }
  }

  /** Dividing a multiple of the divisor gives the multiplier back. */
  lemma DivExact(c: nat, q: nat)
    requires c > 0
    ensures (c * q) / c == q
  {
    DivAtMost(c * q, c, q);
    var d := (c * q) / c;
    if d < q {
      MulLeft(d + 1, q, c);
      assert false;
    }
  }

  /**
   * Nothing wraps for any job count a vector can hold: the job started as
   * number `k + 1` of `count - 1` is shown at `(k + 1) * 100 / count` percent,
   * between 0 and 100, below 100 for every compile job and exactly 100 for
   * the job that completes the count (the link).
   */
  lemma PercentInRange(started: nat, count: nat)
    requires started < count < 0x200_0000_0000_0000
    ensures ComputePercent(started, 0, count) == (started + 1) * 100 / count
    ensures 0 <= ComputePercent(started, 0, count) <= 100
    ensures ComputePercent(started, 0, count) == 100 <==> started + 1 == count
  {
    var v := (started + 1) * 100;
    assert v < U64Modulus by {
      MulLeft(started + 1, 0x200_0000_0000_0000, 100);
    }
    MulLeft(started + 1, count, 100);
    DivAtMost(v, count, 100);
    assert Wrap64(started + 1) == started + 1;
    assert Wrap64(v) == v;
    assert ToInt32(v / count) == v / count;
    if started + 1 < count {
      MulLeft(started + 2, count, 100);
      DivBelow(v, count, 100);
    } else {
      assert v == count * 100;
      DivExact(count, 100);
    }
  }
}
