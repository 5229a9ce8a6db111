/** The pieces of JavaScript's string behaviour that the core relies on:
    the white-space class shared by `String.prototype.trim` and the regular
    expression escape `\s`, trimming itself, and the decimal rendering of a
    non-negative integer inside a template literal. */
module JsText {
  import opened Options

  /** JavaScript truthiness of a value that is either a string or absent
      (undefined or null): absent and the empty string are false. */
  predicate Truthy(field: Option<string>) {
    field.Some? && field.value != ""
  }

  /** ECMAScript's WhiteSpace and LineTerminator characters; `trim()` strips
      exactly these and `\s` matches exactly these. */
  predicate IsSpace(c: char) {
    || c == '\t' || c == '\n' || c == '\U{B}' || c == '\U{C}' || c == '\r' || c == ' '
    || c == '\U{A0}' || c == '\U{1680}' || ('\U{2000}' <= c <= '\U{200A}')
    || c == '\U{2028}' || c == '\U{2029}' || c == '\U{202F}' || c == '\U{205F}'
    || c == '\U{3000}' || c == '\U{FEFF}'
  }

  predicate AllSpace(s: string) {
    forall i :: 0 <= i < |s| ==> IsSpace(s[i])
  }

  predicate NoSpace(s: string) {
    forall i :: 0 <= i < |s| ==> !IsSpace(s[i])
  }

  /** True when `s` neither begins nor ends with white space. */
  predicate IsTrimmed(s: string) {
    s == [] || (!IsSpace(s[0]) && !IsSpace(s[|s| - 1]))
  }

  /** The index of the first character at or after `i` that is not white
      space, or `|s|` when there is none. */
  function FirstNonSpace(s: string, i: nat): (k: nat)
    requires i <= |s|
    ensures i <= k <= |s|
    ensures k < |s| ==> !IsSpace(s[k])
    ensures forall j :: i <= j < k ==> IsSpace(s[j])
    decreases |s| - i
  {
    if i < |s| && IsSpace(s[i]) then FirstNonSpace(s, i + 1) else i
  }

  /** The end of `s[lo..hi]` once its trailing white space is dropped. */
  function EndOfText(s: string, lo: nat, hi: nat): (k: nat)
    requires lo <= hi <= |s|
    ensures lo <= k <= hi
    ensures k > lo ==> !IsSpace(s[k - 1])
    ensures forall j :: k <= j < hi ==> IsSpace(s[j])
    decreases hi - lo
  {
    if hi > lo && IsSpace(s[hi - 1]) then EndOfText(s, lo, hi - 1) else hi
  }

  /** How many characters `trim()` drops from the front of `s`. */
  function TrimOffset(s: string): nat
    ensures TrimOffset(s) <= |s|
  {
    FirstNonSpace(s, 0)
  }

  /** Where the part `trim()` keeps ends. */
  function TrimLimit(s: string): nat
    ensures TrimOffset(s) <= TrimLimit(s) <= |s|
  {
    EndOfText(s, TrimOffset(s), |s|)
  }

  /** JavaScript's `s.trim()`: the slice of `s` left once white space is
      stripped from both ends. */
  function Trim(s: string): (r: string)
    ensures TrimOffset(s) + |r| <= |s|
    ensures r == s[TrimOffset(s)..TrimOffset(s) + |r|]
    ensures AllSpace(s[..TrimOffset(s)]) && AllSpace(s[TrimOffset(s) + |r|..])
    ensures IsTrimmed(r)
    ensures r == [] <==> AllSpace(s)
  {
    var a, b := TrimOffset(s), TrimLimit(s);
    assert a < b ==> !IsSpace(s[a]) && !IsSpace(s[b - 1]);
    assert a == b ==> forall j :: 0 <= j < |s| ==> IsSpace(s[j]);
    s[a..b]
  }

  /** The first non-space index is the only index before which everything
      is white space and at which white space stops. */
  lemma FirstNonSpaceAt(s: string, k: nat)
    requires k < |s| && !IsSpace(s[k]) && forall j :: 0 <= j < k ==> IsSpace(s[j])
    ensures TrimOffset(s) == k
  {
  }

  /** Likewise for the end of the kept part. */
  lemma EndOfTextAt(s: string, k: nat)
    requires TrimOffset(s) < k <= |s| && !IsSpace(s[k - 1]) && forall j :: k <= j < |s| ==> IsSpace(s[j])
    ensures TrimLimit(s) == k
  {
  }

  /** Trimming a string that is already trimmed leaves it as it is: the
      proxy's trim of a prompt the page trimmed changes nothing. */
  lemma TrimOfTrimmed(s: string)
    requires IsTrimmed(s)
    ensures Trim(s) == s
  {
    if s != [] {
      FirstNonSpaceAt(s, 0);
      EndOfTextAt(s, |s|);
    }
  }

  /** Trimming removes exactly the white space padding around a trimmed
      core, however much there is. */
  lemma TrimStripsPadding(lead: string, core: string, trail: string)
    requires AllSpace(lead) && AllSpace(trail) && IsTrimmed(core) && core != []
    ensures Trim(lead + core + trail) == core
  {
    var s := lead + core + trail;
    var a, b := |lead|, |lead| + |core|;
    assert forall j :: 0 <= j < a ==> s[j] == lead[j];
    assert forall j :: b <= j < |s| ==> s[j] == trail[j - b];
    assert s[a] == core[0] && s[b - 1] == core[|core| - 1];
    FirstNonSpaceAt(s, a);
    EndOfTextAt(s, b);
    assert s[a..b] == core;
  }

  function DigitChar(d: nat): (c: char)
    requires d < 10
    ensures '0' <= c <= '9' && (c as int) - ('0' as int) == d
  {
    (('0' as int) + d) as char
  }

  /** The value a string of decimal digits denotes. */
  function DecimalValue(s: string): nat
    requires forall i :: 0 <= i < |s| ==> '0' <= s[i] <= '9'
  {
    if s == [] then 0
    else 10 * DecimalValue(s[..|s| - 1]) + ((s[|s| - 1] as int) - ('0' as int))
  }

  /** `${n}` for a non-negative integer: its shortest decimal numeral. */
  function Decimal(n: nat): (r: string)
    ensures |r| >= 1 && (forall i :: 0 <= i < |r| ==> '0' <= r[i] <= '9')
    ensures DecimalValue(r) == n
    ensures r[0] == '0' ==> r == "0"
  {
    if n < 10 then [DigitChar(n)]
    else
      var prefix := Decimal(n / 10);
      var r := prefix + [DigitChar(n % 10)];
      assert r[..|r| - 1] == prefix;
      r
  }
}
