/** The foreign pieces the three components lean on: SHA-256 from crypto-js,
    JSON.stringify and JSON.parse, JavaScript's number-to-string conversion
    inside `+`, `String.prototype.startsWith`/`substring`, and the
    `Array(n).join(sep)` idiom that builds a mining target. */
module Runtime {

  datatype Option<T> = None | Some(value: T)

  /** A JSON value as JSON.parse produces it and JSON.stringify consumes it. */
  datatype Json =
    | JNull
    | JBool(b: bool)
    | JNumber(n: int)
    | JString(s: string)
    | JArray(items: seq<Json>)
    | JObject(members: seq<(string, Json)>)

  /** The payload `{ amount: n }` both block components start from. */
  function Amount(n: int): Json
  {
    JObject([("amount", JNumber(n))])
  }

  predicate IsLowerHex(c: char)
  {
    '0' <= c <= '9' || 'a' <= c <= 'f'
  }

  /** A digest as `sha256(...).toString()` prints it: 64 lower-case hex digits. */
  type Hex = s: string | |s| == 64 && forall i :: 0 <= i < |s| ==> IsLowerHex(s[i])
    witness seq(64, _ => '0')

  /** The library calls the components make and that are not modelled here:
      they are parameters, so nothing is assumed of them beyond their types
      (in particular SHA-256 is not assumed injective). */
  datatype Primitives = Primitives(
    sha256: string -> Hex,
    stringify: Json -> string,
    parse: string -> Option<Json>)

  function DigitChar(d: nat): char
    requires d < 10
  {
    (48 + d) as char
  }

  /** The decimal text JavaScript produces when a non-negative integer is
      concatenated with a string: decimal digits, with no leading zero. */
  function Decimal(n: nat): (s: string)
    ensures 1 <= |s|
    ensures 10 <= n ==> 2 <= |s|
    decreases n
  {
    if n < 10 then [DigitChar(n)] else Decimal(n / 10) + [DigitChar(n % 10)]
  }

  /** The text is all decimal digits and starts with '0' only for zero. */
  lemma {:induction false} DecimalDigits(n: nat)
    ensures forall i :: 0 <= i < |Decimal(n)| ==> '0' <= Decimal(n)[i] <= '9'
    ensures Decimal(n)[0] == '0' ==> n == 0
    decreases n
  {
    if 10 <= n {
      DecimalDigits(n / 10);
      assert Decimal(n)[0] == Decimal(n / 10)[0];
    }
  }

  /** Distinct numbers print as distinct text. */
  lemma {:induction false} DecimalInjective(a: nat, b: nat)
    ensures Decimal(a) == Decimal(b) <==> a == b
    decreases a
  {
    if Decimal(a) == Decimal(b) {
      var s := Decimal(a);
      assert s[|s| - 1] == DigitChar(a % 10) == DigitChar(b % 10);
      if 10 <= a && 10 <= b {
        assert Decimal(a / 10) == s[..|s| - 1] == Decimal(b / 10);
        DecimalInjective(a / 10, b / 10);
      }
    }
  }

  /** `Array(holes).join(sep)`: an array of `holes` empty slots joined by
      `sep`, that is `holes - 1` copies of the separator. */
  function ArrayJoin(holes: nat, sep: string): (r: string)
    ensures |r| == if holes <= 1 then 0 else (holes - 1) * |sep|
    ensures forall i :: 0 <= i < |r| ==> r[i] in sep
  {
    if holes <= 1 then "" else ArrayJoin(holes - 1, sep) + sep
  }

  /** The mining target `Array(difficulty + 1).join("0")`: exactly
      `difficulty` characters '0'. */
  function Target(difficulty: nat): (t: string)
    ensures |t| == difficulty
    ensures forall i :: 0 <= i < difficulty ==> t[i] == '0'
  {
    ArrayJoin(difficulty + 1, "0")
  }

  /** `s.startsWith(prefix)`: the prefix fits and agrees character by character. */
  predicate StartsWith(s: string, prefix: string): (b: bool)
    ensures b <==> |prefix| <= |s| && forall i :: 0 <= i < |prefix| ==> s[i] == prefix[i]
  {
    |prefix| <= |s| && s[..|prefix|] == prefix
  }

  /** `s.substring(start, end)`: both bounds clamped to the length, swapped when
      out of order. */
  function Substring(s: string, start: nat, end: nat): (r: string)
    ensures start <= end <= |s| ==> r == s[start..end]
    ensures end <= start <= |s| ==> r == s[end..start]
    ensures start <= |s| <= end ==> r == s[start..]
    ensures end <= |s| <= start ==> r == s[end..]
    ensures |s| <= start && |s| <= end ==> r == ""
    ensures |r| <= |s|
  {
    var a := if start < |s| then start else |s|;
    var b := if end < |s| then end else |s|;
    if a <= b then s[a..b] else s[b..a]
  }

  /** A string passes the startsWith test against the target exactly when its
      first `difficulty` characters are all '0'. */
  lemma MeetsTargetIffLeadingZeros(s: string, difficulty: nat)
    ensures StartsWith(s, Target(difficulty)) <==>
            difficulty <= |s| && forall i :: 0 <= i < difficulty ==> s[i] == '0'
  {
    var t := Target(difficulty);
    if difficulty <= |s| && forall i :: 0 <= i < difficulty ==> s[i] == '0' {
      assert s[..difficulty] == t;
    }
  }

  /** Difficulty 0 gives the empty target, which every string starts with. */
  lemma ZeroDifficultyAlwaysMeets(s: string)
    ensures Target(0) == "" && StartsWith(s, Target(0))
  {
  }

  /** The two success tests of the source agree: `hash.substring(0, d) === target`
      holds exactly when `hash.startsWith(target)` does. */
  lemma SubstringTestIffStartsWith(s: string, difficulty: nat)
    ensures Substring(s, 0, difficulty) == Target(difficulty) <==> StartsWith(s, Target(difficulty))
  {
  }

  /** No digest meets a difficulty above 64, so a search at such a difficulty
      never ends. */
  lemma NoDigestMeetsAbove64(h: Hex, difficulty: nat)
    requires 64 < difficulty
    ensures !StartsWith(h, Target(difficulty))
  {
  }
}
