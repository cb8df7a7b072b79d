/** Generated file names: the sibling temp files of src/cli/io.rs and the sidecar socket
    paths of src/sidecar.rs. Each carries the process id and a per-process counter. */
module Names {
  import opened Numerals

  // ---------------------------------------------------------------- temp files

  /** The temp file beside a target called `name`; it lives in the target's directory. */
  function TempName(name: string, pid: nat, counter: nat): string {
    name + ".tmp." + Decimal(pid) + "-" + Decimal(counter)
  }

  /** A temp name determines the target, the process and the counter value it was minted
      from, so no two writers ever share a temp file. */
  lemma TempNameInjective(name: string, pid: nat, counter: nat, name': string, pid': nat, counter': nat)
    requires TempName(name, pid, counter) == TempName(name', pid', counter')
    ensures name == name' && pid == pid' && counter == counter'
  {
    var a, b := name + ".tmp" + "." + Decimal(pid), name' + ".tmp" + "." + Decimal(pid');
    NumeralAvoids(counter, 10, '-');
    NumeralAvoids(counter', 10, '-');
    assert TempName(name, pid, counter) == a + ['-'] + Decimal(counter);
    assert TempName(name', pid', counter') == b + ['-'] + Decimal(counter');
    SplitAtLast(a, Decimal(counter), b, Decimal(counter'), '-');
    NumeralInjective(counter, counter', 10);
    NumeralAvoids(pid, 10, '.');
    NumeralAvoids(pid', 10, '.');
    assert a == name + ".tmp" + ['.'] + Decimal(pid);
    assert b == name' + ".tmp" + ['.'] + Decimal(pid');
    SplitAtLast(name + ".tmp", Decimal(pid), name' + ".tmp", Decimal(pid'), '.');
    NumeralInjective(pid, pid', 10);
    assert (name + ".tmp")[..|name|] == name && (name' + ".tmp")[..|name'|] == name';
  }

  /** A temp file is never mistaken for a target it is a sibling of: the name is longer. */
  lemma TempNameIsNotTarget(name: string, pid: nat, counter: nat)
    ensures TempName(name, pid, counter) != name
  {
    assert |TempName(name, pid, counter)| > |name|;
  }

  // ---------------------------------------------------------------- sidecar sockets

  /** The longest socket path bindable on every supported platform. */
  const MAX_SOCKET_PATH: nat := 103

  function SocketName(pid: nat, sequence: nat, nanos: nat): string {
    "lain-sidecar-" + Decimal(pid) + "-" + Decimal(sequence) + "-" + Numeral(nanos, 16) + ".sock"
  }

  /** The socket goes into the temp directory, or into /tmp when that would be too long. */
  function SocketPath(tempDir: string, unix: bool, pid: nat, sequence: nat, nanos: nat): string {
    var name := SocketName(pid, sequence, nanos);
    var path := tempDir + "/" + name;
    if unix && |path| > MAX_SOCKET_PATH then "/tmp" + "/" + name else path
  }

  lemma SocketNameAvoidsSlash(pid: nat, sequence: nat, nanos: nat)
    ensures '/' !in SocketName(pid, sequence, nanos)
  {
    NumeralAvoids(pid, 10, '/');
    NumeralAvoids(sequence, 10, '/');
    NumeralAvoids(nanos, 16, '/');
  }

  lemma SocketNameInjective(pid: nat, sequence: nat, nanos: nat, pid': nat, sequence': nat, nanos': nat)
    requires SocketName(pid, sequence, nanos) == SocketName(pid', sequence', nanos')
    ensures pid == pid' && sequence == sequence' && nanos == nanos'
  {
    var s, s' := SocketName(pid, sequence, nanos), SocketName(pid', sequence', nanos');
    var a, a' := "lain-sidecar-" + Decimal(pid), "lain-sidecar-" + Decimal(pid');
    var b, b' := a + ['-'] + Decimal(sequence), a' + ['-'] + Decimal(sequence');
    NumeralAvoids(nanos, 16, '-');
    NumeralAvoids(nanos', 16, '-');
    assert s == b + ['-'] + (Numeral(nanos, 16) + ".sock");
    assert s' == b' + ['-'] + (Numeral(nanos', 16) + ".sock");
    SplitAtLast(b, Numeral(nanos, 16) + ".sock", b', Numeral(nanos', 16) + ".sock", '-');
    var h, h' := Numeral(nanos, 16), Numeral(nanos', 16);
    assert (h + ".sock")[..|h|] == h && (h' + ".sock")[..|h'|] == h';
    NumeralInjective(nanos, nanos', 16);
    NumeralAvoids(sequence, 10, '-');
    NumeralAvoids(sequence', 10, '-');
    SplitAtLast(a, Decimal(sequence), a', Decimal(sequence'), '-');
    NumeralInjective(sequence, sequence', 10);
    assert a[13..] == Decimal(pid) && a'[13..] == Decimal(pid');
    NumeralInjective(pid, pid', 10);
  }

  /** Two paths minted under different sequence numbers differ, whatever the clock reads and
      whichever of the two directories each of them ends up in. */
  lemma SocketPathInjective(tempDir: string, unix: bool, pid: nat, sequence: nat, nanos: nat,
                            tempDir': string, unix': bool, pid': nat, sequence': nat, nanos': nat)
    requires SocketPath(tempDir, unix, pid, sequence, nanos) == SocketPath(tempDir', unix', pid', sequence', nanos')
    ensures pid == pid' && sequence == sequence' && nanos == nanos'
  {
    var n, n' := SocketName(pid, sequence, nanos), SocketName(pid', sequence', nanos');
    SocketNameAvoidsSlash(pid, sequence, nanos);
    SocketNameAvoidsSlash(pid', sequence', nanos');
    var d :| SocketPath(tempDir, unix, pid, sequence, nanos) == d + ['/'] + n;
    var d' :| SocketPath(tempDir', unix', pid', sequence', nanos') == d' + ['/'] + n';
    SplitAtLast(d, n, d', n', '/');
    SocketNameInjective(pid, sequence, nanos, pid', sequence', nanos');
  }

  /** The temp directory is given up only on Unix, for /tmp, and only if the path would be longer
      than 103 bytes in it. */
  lemma FallbackOnlyIfTooLong(tempDir: string, unix: bool, pid: nat, sequence: nat, nanos: nat)
    ensures var name := SocketName(pid, sequence, nanos);
            var there, fallback := tempDir + "/" + name, "/tmp/" + name;
            && (SocketPath(tempDir, unix, pid, sequence, nanos) == there <==>
                  !unix || |there| <= 103 || there == fallback)
            && (SocketPath(tempDir, unix, pid, sequence, nanos) != there ==>
                  SocketPath(tempDir, unix, pid, sequence, nanos) == fallback)
  {
    assert "/tmp" + "/" == "/tmp/";
  }

  /** On Unix the path always fits: with a 32-bit process id, a 64-bit counter and a 128-bit
      timestamp the /tmp fallback is within the limit. */
  lemma SocketPathFits(tempDir: string, pid: nat, sequence: nat, nanos: nat)
    requires pid < 0x1_0000_0000
    requires sequence < 0x1_0000_0000_0000_0000
    requires nanos < 0x1_0000_0000_0000_0000_0000_0000_0000_0000
    ensures |SocketPath(tempDir, true, pid, sequence, nanos)| <= 103
  {
    PowersOfTen();
    PowersOfSixteen();
    NumeralLength(pid, 10, 10);
    NumeralLength(sequence, 10, 20);
    NumeralLength(nanos, 16, 32);
  }

  lemma PowerStep(base: Base, k: nat, p: nat, j: nat, q: nat)
    requires Power(base, k) == p && Power(base, j) == q
    ensures Power(base, k + j) == p * q
    decreases j
  {
    if j == 0 {
    } else {
      PowerStep(base, k, p, j - 1, Power(base, j - 1));
      assert Power(base, k + j) == base * (p * Power(base, j - 1));
      assert base * (p * Power(base, j - 1)) == p * (base * Power(base, j - 1));
    }
  }

  lemma PowersOfTen()
    ensures Power(10, 10) == 10_000_000_000
    ensures Power(10, 20) == 100_000_000_000_000_000_000
  {
    assert Power(10, 1) == 10;
    PowerStep(10, 1, 10, 1, 10);
    PowerStep(10, 2, 100, 2, 100);
    PowerStep(10, 4, 10_000, 1, 10);
    PowerStep(10, 5, 100_000, 5, 100_000);
    PowerStep(10, 10, 10_000_000_000, 10, 10_000_000_000);
  }

  lemma PowersOfSixteen()
    ensures Power(16, 32) == 0x1_0000_0000_0000_0000_0000_0000_0000_0000
  {
    assert Power(16, 1) == 0x10;
    PowerStep(16, 1, 0x10, 1, 0x10);
    PowerStep(16, 2, 0x100, 2, 0x100);
    PowerStep(16, 4, 0x1_0000, 4, 0x1_0000);
    PowerStep(16, 8, 0x1_0000_0000, 8, 0x1_0000_0000);
    PowerStep(16, 16, 0x1_0000_0000_0000_0000, 16, 0x1_0000_0000_0000_0000);
  }
}
