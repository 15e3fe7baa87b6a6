/** The cached-binary path: `<shuttledir>/binaries/actions-<hex>[.exe]`,
    where `<hex>` is the lower-case hexadecimal encoding of the first 16 bytes
    of the content hash and `.exe` is added on Windows. */
module ShuttleFolder {
  import opened Wrappers
  import opened Hex
  import opened GoStrings
  import Paths

  const TaskBinaryDir := "binaries"
  const TaskBinaryPrefix := "actions"

  /** The file name of the cached binary. Slicing `[:16]` panics on a
      shorter hash, hence the precondition. */
  function BinaryName(hash: seq<Byte>, goos: string): (name: string)
    requires |hash| >= 16
    ensures HasPrefix(name, "actions-")
    ensures |name| == if goos == "windows" then 44 else 40
    ensures forall i :: 8 <= i < 40 ==> IsLowerHexDigit(name[i])
    ensures DecodeString(name[8..40]) == Some(hash[..16])
    ensures goos == "windows" <==> HasSuffix(name, ".exe")
    ensures Paths.IsPlainName(name)
  {
    var hex := EncodeToString(hash[..16]);
    DecodeEncode(hash[..16]);
    HexNameFacts(hex, goos);
    var binaryName := TaskBinaryPrefix + "-" + hex;
    if goos == "windows" then binaryName + ".exe" else binaryName
  }

  /** Unfolding helper: the name written out as prefix, dash, hexadecimal text and, on Windows, ".exe". */
  lemma BinaryNameLayout(hash: seq<Byte>, goos: string)
    requires |hash| >= 16
    ensures BinaryName(hash, goos)
         == "actions-" + EncodeToString(hash[..16]) + (if goos == "windows" then ".exe" else "")
  {
  }

  /** The facts BinaryName promises, for any 32 lower-case hexadecimal digits. */
  lemma HexNameFacts(hex: string, goos: string)
    requires |hex| == 32 && forall i :: 0 <= i < 32 ==> IsLowerHexDigit(hex[i])
    ensures var base := TaskBinaryPrefix + "-" + hex;
      var name := if goos == "windows" then base + ".exe" else base;
      && HasPrefix(name, "actions-")
      && name[8..40] == hex
      && (goos == "windows" <==> HasSuffix(name, ".exe"))
      && Paths.IsPlainName(name)
  {
    var base := TaskBinaryPrefix + "-" + hex;
    assert base[..8] == "actions-";
    assert base[8..] == hex;
    assert '/' !in hex by {
      forall i | 0 <= i < 32 ensures hex[i] != '/' {
        assert IsLowerHexDigit(hex[i]);
      }
    }
    assert '/' !in "actions-";
    assert '/' !in ".exe";
    if goos == "windows" {
      var name := base + ".exe";
      assert name[..8] == "actions-";
      assert name[8..40] == hex;
      assert name[40..] == ".exe";
    } else {
      assert base[36] == hex[28];
      assert IsLowerHexDigit(hex[28]);
    }
  }

  /** The path of the cached binary: the name under `binaries` under
      `shuttledir`. Only clean directories are modelled (see README). */
  function CalculateBinaryPath(shuttledir: string, hash: seq<Byte>, goos: string): (p: string)
    requires |hash| >= 16
    requires Paths.IsClean(shuttledir)
    ensures Paths.Base(p) == BinaryName(hash, goos)
    ensures Paths.Base(Paths.Parent(p)) == TaskBinaryDir
    ensures Paths.Parent(Paths.Parent(p)) == shuttledir
    ensures Paths.IsClean(p)
  {
    var name := BinaryName(hash, goos);
    Paths.JoinComponents(shuttledir, "binaries", name);
    Paths.JoinIsClean(shuttledir, "binaries", name);
    Paths.Join(shuttledir, "binaries", name)
  }

  /** Two hashes give the same path exactly when their first 16 bytes agree. */
  lemma PathDeterminedByPrefix(shuttledir: string, h1: seq<Byte>, h2: seq<Byte>, goos: string)
    requires |h1| >= 16 && |h2| >= 16
    requires Paths.IsClean(shuttledir)
    ensures CalculateBinaryPath(shuttledir, h1, goos) == CalculateBinaryPath(shuttledir, h2, goos)
            <==> h1[..16] == h2[..16]
  {
    if CalculateBinaryPath(shuttledir, h1, goos) == CalculateBinaryPath(shuttledir, h2, goos) {
      var n1, n2 := BinaryName(h1, goos), BinaryName(h2, goos);
      assert n1 == n2;
      assert Some(h1[..16]) == DecodeString(n1[8..40]) == Some(h2[..16]);
    }
  }
}

/** Worked cases of the cached-binary path. */
module ShuttleFolderExamples {
  import opened Hex
  import ShuttleFolder
  import Paths

  /** The hexadecimal text "30313233343536373839616263646566", eight digits at a time. */
  const H0 := "30313233"
  const H1 := "34353637"
  const H2 := "38396162"
  const H3 := "63646566"

  /** The worked case: any hash whose first 16 bytes are those of the ASCII
      text "0123456789abcdef" (0x30..0x39 and 0x61..0x66), such as the bytes
      of "0123456789abcdef0123456789abcdef", outside Windows, lands at
      /cache/binaries/actions-30313233343536373839616263646566. */
  lemma ExampleNonWindows(hash: seq<Byte>)
    requires |hash| >= 16 && hash[..16] == AsciiHash[..16]
    ensures Paths.IsClean("/cache") && ShuttleFolder.CalculateBinaryPath("/cache", hash, "linux")
            == "/cache/binaries/" + "actions-" + (H0 + H1 + H2 + H3)
  {
    ExampleName(hash, "linux");
    UnderCache(hash, "linux", "actions-" + (H0 + H1 + H2 + H3));
  }

  /** The same call on Windows appends ".exe". */
  lemma ExampleWindows(hash: seq<Byte>)
    requires |hash| >= 16 && hash[..16] == AsciiHash[..16]
    ensures Paths.IsClean("/cache") && ShuttleFolder.CalculateBinaryPath("/cache", hash, "windows")
            == "/cache/binaries/" + "actions-" + (H0 + H1 + H2 + H3) + ".exe"
  {
    ExampleName(hash, "windows");
    UnderCache(hash, "windows", "actions-" + (H0 + H1 + H2 + H3) + ".exe");
  }

  lemma UnderCache(hash: seq<Byte>, goos: string, name: string)
    requires |hash| >= 16 && ShuttleFolder.BinaryName(hash, goos) == name
    ensures Paths.IsClean("/cache") && ShuttleFolder.CalculateBinaryPath("/cache", hash, goos)
            == "/cache/binaries/" + name
  {
    CacheIsClean();
  }

  lemma CacheIsClean()
    ensures Paths.IsClean("/cache")
  {
    Paths.SinglePlain("cache");
    assert "/cache"[1..] == "cache";
  }

  lemma ExampleName(hash: seq<Byte>, goos: string)
    requires |hash| >= 16 && hash[..16] == AsciiHash[..16]
    ensures ShuttleFolder.BinaryName(hash, goos)
         == "actions-" + (H0 + H1 + H2 + H3) + (if goos == "windows" then ".exe" else "")
  {
    AsciiHashHex();
    ShuttleFolder.BinaryNameLayout(hash, goos);
  }

  /** The first 16 bytes of AsciiHash, four at a time. */
  const Q0: seq<Byte> := [48, 49, 50, 51]
  const Q1: seq<Byte> := [52, 53, 54, 55]
  const Q2: seq<Byte> := [56, 57, 97, 98]
  const Q3: seq<Byte> := [99, 100, 101, 102]

  /** Encodes the first 16 bytes of AsciiHash four bytes at a time. */
  lemma AsciiHashHex()
    ensures EncodeToString(AsciiHash[..16]) == H0 + H1 + H2 + H3
  {
    AsciiHashPrefix();
    EncodeQuarters();
    Quarter0();
    Quarter1();
    Quarter2();
    Quarter3();
  }

  lemma AsciiHashPrefix()
    ensures AsciiHash[..16] == Q0 + Q1 + Q2 + Q3
  {
  }

  lemma EncodeQuarters()
    ensures EncodeToString(Q0 + Q1 + Q2 + Q3)
         == EncodeToString(Q0) + EncodeToString(Q1) + EncodeToString(Q2) + EncodeToString(Q3)
  {
    EncodeAppend(Q0 + Q1 + Q2, Q3);
    EncodeAppend(Q0 + Q1, Q2);
    EncodeAppend(Q0, Q1);
  }

  lemma Quarter0()
    ensures EncodeToString(Q0) == H0
  {
    EncodeFour(48, 49, 50, 51);
    assert HexDigit(0) == '0' && HexDigit(1) == '1' && HexDigit(2) == '2' && HexDigit(3) == '3';
  }

  lemma Quarter1()
    ensures EncodeToString(Q1) == H1
  {
    EncodeFour(52, 53, 54, 55);
    assert HexDigit(3) == '3' && HexDigit(4) == '4' && HexDigit(5) == '5' && HexDigit(6) == '6' && HexDigit(7) == '7';
  }

  lemma Quarter2()
    ensures EncodeToString(Q2) == H2
  {
    EncodeFour(56, 57, 97, 98);
    assert HexDigit(1) == '1' && HexDigit(2) == '2' && HexDigit(3) == '3' && HexDigit(6) == '6' && HexDigit(8) == '8' && HexDigit(9) == '9';
  }

  lemma Quarter3()
    ensures EncodeToString(Q3) == H3
  {
    EncodeFour(99, 100, 101, 102);
    assert HexDigit(3) == '3' && HexDigit(4) == '4' && HexDigit(5) == '5' && HexDigit(6) == '6';
  }

  lemma EncodeFour(a: Byte, b: Byte, c: Byte, d: Byte)
    ensures EncodeToString([a, b, c, d])
         == [HexDigit(a / 16), HexDigit(a % 16), HexDigit(b / 16), HexDigit(b % 16),
             HexDigit(c / 16), HexDigit(c % 16), HexDigit(d / 16), HexDigit(d % 16)]
  {
    var s: seq<Byte> := [a, b, c, d];
    assert [d][1..] == [];
    assert EncodeToString([d]) == [HexDigit(d / 16), HexDigit(d % 16)];
    assert [c, d][1..] == [d];
    assert EncodeToString([c, d]) == [HexDigit(c / 16), HexDigit(c % 16)] + EncodeToString([d]);
    assert [b, c, d][1..] == [c, d];
    assert EncodeToString([b, c, d]) == [HexDigit(b / 16), HexDigit(b % 16)] + EncodeToString([c, d]);
    assert s[1..] == [b, c, d];
  }

  /** The bytes of the ASCII text "0123456789abcdef0123456789abcdef". */
  const AsciiHash: seq<Byte> :=
    [48, 49, 50, 51, 52, 53, 54, 55, 56, 57, 97, 98, 99, 100, 101, 102,
     48, 49, 50, 51, 52, 53, 54, 55, 56, 57, 97, 98, 99, 100, 101, 102]
}
