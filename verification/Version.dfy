/** Driver version numbers (src/search/main.cxx). */
module Version {

  /** C's / and % on int, for a positive divisor: they truncate toward zero. */
  function TruncDiv(a: int, b: int): int
    requires b > 0
  {
    if a >= 0 then a / b else -((-a) / b)
  }

  function TruncMod(a: int, b: int): int
    requires b > 0
  {
    if a >= 0 then a % b else -((-a) % b)
  }

  /** src/search/main.cxx:41-44 */
  function ParseLibcudaVersion(ver: int): (int, int, int) {
    (TruncDiv(ver, 1000), TruncDiv(TruncMod(ver, 100), 10), TruncMod(ver, 10))
  }

  lemma Thousands(q: nat, r: nat)
    requires r < 1000
    ensures TruncDiv(1000 * q + r, 1000) == q
  {
  }

  lemma Hundreds(q: nat, r: nat)
    requires r < 100
    ensures TruncMod(100 * q + r, 100) == r
  {
  }

  lemma Tens(q: nat, r: nat)
    requires r < 10
    ensures TruncDiv(10 * q + r, 10) == q && TruncMod(10 * q + r, 10) == r
  {
  }

  /** Each part of a version that is not negative, as a decimal digit. */
  lemma Parts(k: nat, h: nat, t: nat, u: nat)
    requires h < 10 && t < 10 && u < 10
    ensures ParseLibcudaVersion(1000 * k + 100 * h + 10 * t + u) == (k, t, u)
  {
    var ver := 1000 * k + 100 * h + 10 * t + u;
    Thousands(k, 100 * h + 10 * t + u);
    Hundreds(10 * k + h, 10 * t + u);
    Tens(t, u);
    Tens(100 * k + 10 * h + t, u);
    assert ver == 100 * (10 * k + h) + (10 * t + u);
    assert ver == 10 * (100 * k + 10 * h + t) + u;
  }

  lemma Digits(ver: nat) returns (k: nat, h: nat, t: nat, u: nat)
    ensures ver == 1000 * k + 100 * h + 10 * t + u && h < 10 && t < 10 && u < 10
  {
    u, t := ver % 10, ver / 10 % 10;
    h, k := ver / 10 / 10 % 10, ver / 10 / 10 / 10;
  }

  /** A driver encodes its version as 1000 * major + 10 * minor + patch. The
      triple is recovered exactly when minor and patch have one digit. */
  lemma DecodesExactly(major: nat, minor: nat, patch: nat)
    ensures ParseLibcudaVersion(1000 * major + 10 * minor + patch) == (major, minor, patch)
      <==> minor < 10 && patch < 10
  {
    if minor < 10 && patch < 10 {
      Parts(major, 0, minor, patch);
    } else {
      var k, h, t, u := Digits(1000 * major + 10 * minor + patch);
      Parts(k, h, t, u);
    }
  }

  /** Comparing encoded versions compares the triples. */
  lemma ComparesTriples(major: nat, minor: nat, patch: nat, major': nat, minor': nat, patch': nat)
    requires minor < 10 && patch < 10 && minor' < 10 && patch' < 10
    ensures 1000 * major + 10 * minor + patch < 1000 * major' + 10 * minor' + patch'
      <==> major < major' || (major == major' && (minor < minor' || (minor == minor' && patch < patch')))
  {
  }
}
