/** The fixed circuit input set that the Prove handler of `MultiplierCircuitView`
    hands to the proving backend: three signals of an RSA signature-verification
    circuit, each a list of 32 decimal numerals, the 64-bit limbs of a 2048-bit
    number.

    The limbs are kept as numbers and rendered with `DecimalString`; the numerals
    written in `runProveAction` are exactly these renderings.
 */
module CircuitInputs {

  type InputMap = map<string, seq<string>>

  /** Number of limbs in each signal. */
  const Limbs: nat := 32

  /** Every limb is a 64-bit word. */
  const LimbBound: nat := 0x1_0000_0000_0000_0000

  function DigitChar(d: nat): (c: char)
    requires d < 10
    ensures '0' <= c <= '9'
  {
    ('0' as int + d) as char
  }

  function DigitValue(c: char): (d: nat)
    requires '0' <= c <= '9'
    ensures d < 10
    ensures DigitChar(d) == c
  {
    (c as int - '0' as int) as nat
  }

  /** Canonical decimal numeral: digits only, no leading zero except in "0" itself. */
  predicate IsCanonicalDecimal(s: string) {
    && |s| > 0
    && (forall i :: 0 <= i < |s| ==> '0' <= s[i] <= '9')
    && (s[0] == '0' ==> |s| == 1)
  }

  /** The decimal numeral of `n`, most significant digit first. */
  function DecimalString(n: nat): (s: string)
    ensures |s| > 0
    ensures forall i :: 0 <= i < |s| ==> '0' <= s[i] <= '9'
    decreases n
  {
    if n < 10 then [DigitChar(n)] else DecimalString(n / 10) + [DigitChar(n % 10)]
  }

  /** The value of a string of decimal digits (0 for the empty string). */
  function ParseDecimal(s: string): nat
    requires forall i :: 0 <= i < |s| ==> '0' <= s[i] <= '9'
  {
    if |s| == 0 then 0 else ParseDecimal(s[..|s| - 1]) * 10 + DigitValue(s[|s| - 1])
  }

  /** A rendered numeral starts with '0' only when it is "0". */
  lemma {:induction false} DecimalStringLeadingDigit(n: nat)
    ensures DecimalString(n)[0] == '0' <==> n == 0
    decreases n
  {
    if n >= 10 {
      DecimalStringLeadingDigit(n / 10);
      assert DecimalString(n)[0] == DecimalString(n / 10)[0];
    }
  }

  lemma DecimalStringCanonical(n: nat)
    ensures IsCanonicalDecimal(DecimalString(n))
  {
    DecimalStringLeadingDigit(n);
  }

  /** Rendering then parsing gives the number back. */
  lemma {:induction false} ParseDecimalString(n: nat)
    ensures ParseDecimal(DecimalString(n)) == n
    decreases n
  {
    var s := DecimalString(n);
    if n >= 10 {
      ParseDecimalString(n / 10);
      assert s[..|s| - 1] == DecimalString(n / 10);
    }
  }

  /** Parsing then rendering gives a canonical numeral back: the rendering is the
      one canonical spelling of each number. */
  lemma {:induction false} DecimalStringParse(s: string)
    requires IsCanonicalDecimal(s)
    ensures DecimalString(ParseDecimal(s)) == s
    decreases |s|
  {
    var n := ParseDecimal(s);
    if |s| > 1 {
      var init, last := s[..|s| - 1], s[|s| - 1];
      assert IsCanonicalDecimal(init);
      DecimalStringParse(init);
      ParseNonZero(init);
      assert n == ParseDecimal(init) * 10 + DigitValue(last);
      assert n / 10 == ParseDecimal(init) && n % 10 == DigitValue(last);
      assert s == init + [last];
    }
  }

  /** A canonical numeral other than "0" has a non-zero value. */
  lemma {:induction false} ParseNonZero(s: string)
    requires IsCanonicalDecimal(s) && s != "0"
    ensures ParseDecimal(s) > 0
    decreases |s|
  {
    if |s| > 1 {
      var init := s[..|s| - 1];
      assert IsCanonicalDecimal(init) && init != "0";
      ParseNonZero(init);
    }
  }

  const SignatureLimbs: seq<nat> := [
    3582320600048169363, 7163546589759624213, 18262551396327275695, 4479772254206047016,
    1970274621151677644, 6547632513799968987, 921117808165172908, 7155116889028933260,
    16769940396381196125, 17141182191056257954, 4376997046052607007, 17471823348423771450,
    16282311012391954891, 70286524413490741, 1588836847166444745, 15693430141227594668,
    13832254169115286697, 15936550641925323613, 323842208142565220, 6558662646882345749,
    15268061661646212265, 14962976685717212593, 15773505053543368901, 9586594741348111792,
    1455720481014374292, 13945813312010515080, 6352059456732816887, 17556873002865047035,
    2412591065060484384, 11512123092407778330, 8499281165724578877, 12768005853882726493
  ]

  const ModulusLimbs: seq<nat> := [
    13792647154200341559, 12773492180790982043, 13046321649363433702, 10174370803876824128,
    7282572246071034406, 1524365412687682781, 4900829043004737418, 6195884386932410966,
    13554217876979843574, 17902692039595931737, 12433028734895890975, 15971442058448435996,
    4591894758077129763, 11258250015882429548, 16399550288873254981, 8246389845141771315,
    14040203746442788850, 7283856864330834987, 12297563098718697441, 13560928146585163504,
    7380926829734048483, 14591299561622291080, 8439722381984777599, 17375431987296514829,
    16727607878674407272, 3233954801381564296, 17255435698225160983, 15093748890170255670,
    15810389980847260072, 11120056430439037392, 5866130971823719482, 13327552690270163501
  ]

  const BaseMessageLimbs: seq<nat> := [
    18114495772705111902, 2254271930739856077, 2068851770, 0,
    0, 0, 0, 0,
    0, 0, 0, 0,
    0, 0, 0, 0,
    0, 0, 0, 0,
    0, 0, 0, 0,
    0, 0, 0, 0,
    0, 0, 0, 0
  ]

  /** The numerals of a list of limbs, one per limb, in order: each canonical and
      parsing back to its limb. */
  function Render(limbs: seq<nat>): (numerals: seq<string>)
    ensures |numerals| == |limbs|
    ensures forall i :: 0 <= i < |limbs| ==> IsCanonicalDecimal(numerals[i]) && ParseDecimal(numerals[i]) == limbs[i]
  {
    if |limbs| == 0 then []
    else
      DecimalStringCanonical(limbs[0]);
      ParseDecimalString(limbs[0]);
      [DecimalString(limbs[0])] + Render(limbs[1..])
  }

  /** A signal value as the circuit expects it: `Limbs` canonical numerals of 64-bit words. */
  predicate WellFormedSignal(numerals: seq<string>) {
    && |numerals| == Limbs
    && forall i :: 0 <= i < |numerals| ==> IsCanonicalDecimal(numerals[i]) && ParseDecimal(numerals[i]) < LimbBound
  }

  lemma RenderWellFormed(limbs: seq<nat>)
    requires LimbsFit(limbs)
    ensures WellFormedSignal(Render(limbs))
  {
  }

  /** The map assembled from the three signals, keyed by signal name. */
  function Assemble(signature: seq<string>, modulus: seq<string>, baseMessage: seq<string>): (m: InputMap)
    ensures m.Keys == {"signature", "modulus", "base_message"}
    ensures m["signature"] == signature && m["modulus"] == modulus && m["base_message"] == baseMessage
  {
    map["signature" := signature, "modulus" := modulus, "base_message" := baseMessage]
  }

  /** The input map built by the Prove handler: exactly the three signals by name,
      each `Limbs` canonical numerals of 64-bit words. */
  function Inputs(): (m: InputMap)
    ensures m.Keys == {"signature", "modulus", "base_message"}
    ensures WellFormedSignal(m["signature"])
    ensures WellFormedSignal(m["modulus"])
    ensures WellFormedSignal(m["base_message"])
  {
    SignatureLimbsFit();
    ModulusLimbsFit();
    BaseMessageLimbsFit();
    RenderWellFormed(SignatureLimbs);
    RenderWellFormed(ModulusLimbs);
    RenderWellFormed(BaseMessageLimbs);
    Assemble(Render(SignatureLimbs), Render(ModulusLimbs), Render(BaseMessageLimbs))
  }

  /** `Limbs` limbs, each a 64-bit word. */
  predicate LimbsFit(limbs: seq<nat>) {
    |limbs| == Limbs && forall i :: 0 <= i < |limbs| ==> limbs[i] < LimbBound
  }

  // The limbs written in `runProveAction` are 64-bit words.

  lemma SignatureLimbsFit()
    ensures LimbsFit(SignatureLimbs)
  {
  }

  lemma ModulusLimbsFit()
    ensures LimbsFit(ModulusLimbs)
  {
  }

  lemma BaseMessageLimbsFit()
    ensures LimbsFit(BaseMessageLimbs)
  {
  }
}
