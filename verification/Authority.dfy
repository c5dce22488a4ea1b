/** The two pure checks of `apps/runner/src/hop-server.ts`: CONNECT targets and forbidden addresses. */
module Authority {
  import opened Base

  datatype Target = Target(host: string, port: nat)

  predicate IsDigit(c: char) {
    '0' <= c <= '9'
  }

  predicate IsHex(c: char) {
    IsDigit(c) || 'a' <= c <= 'f' || 'A' <= c <= 'F'
  }

  predicate Digits(s: string) {
    forall c | c in s :: IsDigit(c)
  }

  /** `Number` of a run of digits. */
  function Value(digits: string): nat
    requires Digits(digits)
  {
    if digits == [] then 0
    else
      assert Last(digits) in digits;
      assert forall c | c in digits[..|digits| - 1] :: c in digits;
      10 * Value(digits[..|digits| - 1]) + (Last(digits) as int - '0' as int)
  }

  /** `[^:/?#\[\]]+`. */
  predicate PlainHost(s: string) {
    s != [] && forall c | c in s :: c !in ":/?#[]"
  }

  /** `\[[0-9a-fA-F:]+\]`. */
  predicate BracketedHost(s: string) {
    && |s| > 2 && s[0] == '[' && Last(s) == ']'
    && forall c | c in s[1..|s| - 1] :: IsHex(c) || c == ':'
  }

  /** How many digits end a string. */
  function DigitRun(s: string): (n: nat)
    ensures n <= |s| && Digits(s[|s| - n..]) && (n < |s| ==> !IsDigit(s[|s| - n - 1]))
  {
    if s == [] || !IsDigit(Last(s)) then 0
    else
      var n := DigitRun(s[..|s| - 1]);
      OneMoreDigit(s, n);
      n + 1
  }

  lemma OneMoreDigit(s: string, n: nat)
    requires s != [] && IsDigit(Last(s)) && n < |s| && Digits(s[..|s| - 1][|s| - 1 - n..])
    ensures Digits(s[|s| - 1 - n..])
  {
    hide IsDigit;
    var digits := s[..|s| - 1][|s| - 1 - n..];
    assert s[|s| - 1 - n..] == digits + [Last(s)];
  }

  /** `parseAuthority`: both patterns end in a colon and one to five digits. */
  function ParseAuthority(target: string): Option<Target> {
    var n := DigitRun(target);
    if !(1 <= n <= 5) || n == |target| || target[|target| - n - 1] != ':' then None
    else
      var host, port := target[..|target| - n - 1], Value(target[|target| - n..]);
      if !PlainHost(host) && !BracketedHost(host) then None
      else if port < 1 || port > 65535 then None
      else Some(Target(host, port))
  }

  lemma {:induction false} DigitRunIs(head: string, digits: string)
    requires Digits(digits) && (head != [] ==> !IsDigit(Last(head)))
    ensures DigitRun(head + digits) == |digits|
  {
    if digits == [] {
      assert head + digits == head;
    } else {
      var init := digits[..|digits| - 1];
      assert forall c | c in init :: c in digits;
      assert Last(digits) in digits;
      assert (head + digits)[..|head + digits| - 1] == head + init;
      DigitRunIs(head, init);
    }
  }

  /** `target` is a host, one colon and the port written with these digits. */
  predicate Spells(target: string, t: Target, digits: string) {
    && Digits(digits) && 1 <= |digits| <= 5 && Value(digits) == t.port
    && target == t.host + ":" + digits
  }

  lemma ParsedIsSpelled(target: string, t: Target)
    requires ParseAuthority(target) == Some(t)
    ensures Spells(target, t, target[|target| - DigitRun(target)..])
    ensures (PlainHost(t.host) || BracketedHost(t.host)) && 1 <= t.port <= 65535
  {
    hide Value, PlainHost, BracketedHost, DigitRun;
    var n := DigitRun(target);
    ThreeParts(target, |target| - n - 1);
  }

  lemma ThreeParts(target: string, k: nat)
    requires k < |target| && target[k] == ':'
    ensures target == target[..k] + ":" + target[k + 1..]
  {
  }

  lemma SpelledParses(target: string, t: Target, digits: string)
    requires Spells(target, t, digits) && (PlainHost(t.host) || BracketedHost(t.host)) && 1 <= t.port <= 65535
    ensures ParseAuthority(target) == Some(t)
  {
    hide Value, PlainHost, BracketedHost;
    assert !IsDigit(Last(t.host + ":"));
    DigitRunIs(t.host + ":", digits);
    assert target[..|target| - |digits| - 1] == t.host && target[|target| - |digits|..] == digits;
  }

  /** A target parses exactly when it is a host, one colon and a port in range, and to that host and port. */
  lemma ParseAuthorityIff(target: string, t: Target)
    ensures ParseAuthority(target) == Some(t) <==>
            && (PlainHost(t.host) || BracketedHost(t.host)) && 1 <= t.port <= 65535
            && exists digits :: Spells(target, t, digits)
  {
    hide *;
    if ParseAuthority(target) == Some(t) {
      ParsedIsSpelled(target, t);
    }
    if digits :| (PlainHost(t.host) || BracketedHost(t.host)) && 1 <= t.port <= 65535 && Spells(target, t, digits) {
      SpelledParses(target, t, digits);
    }
  }

  // ---------------------------------------------------------------------------
  // Addresses no sheet may reach.
  // ---------------------------------------------------------------------------

  predicate Bracketed(s: string) {
    "[" <= s && s != [] && Last(s) == ']'
  }

  /** `stripBrackets`. */
  function StripBrackets(host: string): string {
    if Bracketed(host) then host[1..|host| - 1] else host
  }

  function LowerChar(c: char): char {
    if 'A' <= c <= 'Z' then c + ('a' - 'A') else c
  }

  /** `toLowerCase`, over ASCII. */
  function Lower(s: string): (r: string)
    ensures |r| == |s|
  {
    seq(|s|, i requires 0 <= i < |s| => LowerChar(s[i]))
  }

  predicate LinkLocalV6(s: string) {
    |s| >= 5 && "fe" <= s && s[2] in "89ab" && (IsDigit(s[3]) || 'a' <= s[3] <= 'f') && s[4] == ':'
  }

  predicate IsForbiddenAddress(host: string) {
    var lower := Lower(StripBrackets(host));
    || lower == "localhost" || lower == "::1" || lower == "::"
    || "127." <= lower || "169.254." <= lower || "0." <= lower
    || LinkLocalV6(lower)
    || "::ffff:127." <= lower || "::ffff:169.254." <= lower || "::ffff:0." <= lower
  }

  // ---------------------------------------------------------------------------
  // The same, character by character.
  // ---------------------------------------------------------------------------

  /** `c` is the character `d` of a pattern, in either case if that is a letter. */
  predicate SameLetter(c: char, d: char) {
    c == d || ('a' <= d <= 'z' && c as int == d as int - 32)
  }

  predicate Reads(s: string, pattern: string) {
    |s| == |pattern| && forall i | 0 <= i < |s| :: SameLetter(s[i], pattern[i])
  }

  predicate Begins(s: string, pattern: string) {
    |pattern| <= |s| && Reads(s[..|pattern|], pattern)
  }

  /** `fe`, one of `89ab`, a hexadecimal digit and a colon. */
  predicate LinkLocalForm(s: string) {
    Begins(s, "fe") && |s| >= 5 && s[2] in "89abAB" && IsHex(s[3]) && s[4] == ':'
  }

  /** The addresses, without brackets and in any letter case, that are refused whatever a sheet says. */
  predicate ForbiddenForm(s: string) {
    || Reads(s, "localhost") || Reads(s, "::1") || Reads(s, "::")
    || Begins(s, "127.") || Begins(s, "169.254.") || Begins(s, "0.")
    || LinkLocalForm(s)
    || Begins(s, "::ffff:127.") || Begins(s, "::ffff:169.254.") || Begins(s, "::ffff:0.")
  }

  predicate NoCapitals(s: string) {
    forall c | c in s :: !('A' <= c <= 'Z')
  }

  lemma LowerReads(s: string, pattern: string)
    requires NoCapitals(pattern)
    ensures Lower(s) == pattern <==> Reads(s, pattern)
  {
    assert forall i | 0 <= i < |pattern| :: pattern[i] in pattern;
    if Reads(s, pattern) {
      assert Lower(s) == pattern;
    }
    if Lower(s) == pattern {
      assert forall i | 0 <= i < |s| :: LowerChar(s[i]) == Lower(s)[i] == pattern[i];
    }
  }

  lemma LowerBegins(s: string, pattern: string)
    requires NoCapitals(pattern)
    ensures pattern <= Lower(s) <==> Begins(s, pattern)
  {
    if |pattern| <= |s| {
      assert Lower(s)[..|pattern|] == Lower(s[..|pattern|]);
      LowerReads(s[..|pattern|], pattern);
      hide Lower, Reads;
    }
  }

  lemma LowerLinkLocal(s: string)
    ensures LinkLocalV6(Lower(s)) <==> LinkLocalForm(s)
  {
    LowerBegins(s, "fe");
    hide Begins;
    if |s| >= 5 {
      assert forall i | 0 <= i < |s| :: Lower(s)[i] == LowerChar(s[i]);
      hide Lower;
    }
  }

  lemma LowerForbidden(s: string)
    ensures
      var lower := Lower(s);
      (|| lower == "localhost" || lower == "::1" || lower == "::"
       || "127." <= lower || "169.254." <= lower || "0." <= lower
       || LinkLocalV6(lower)
       || "::ffff:127." <= lower || "::ffff:169.254." <= lower || "::ffff:0." <= lower)
      <==> ForbiddenForm(s)
  {
    hide Lower, Reads, Begins, LinkLocalV6, LinkLocalForm;
    LowerReads(s, "localhost"); LowerReads(s, "::1"); LowerReads(s, "::");
    LowerBegins(s, "127."); LowerBegins(s, "169.254."); LowerBegins(s, "0.");
    LowerLinkLocal(s);
    LowerBegins(s, "::ffff:127."); LowerBegins(s, "::ffff:169.254."); LowerBegins(s, "::ffff:0.");
  }

  /** The verdict on an address, written with brackets or without them. */
  lemma ForbiddenIff(s: string)
    requires '[' !in s && ']' !in s
    ensures IsForbiddenAddress(s) <==> ForbiddenForm(s)
    ensures IsForbiddenAddress("[" + s + "]") <==> ForbiddenForm(s)
  {
    var b := "[" + s + "]";
    assert b[1..|b| - 1] == s;
    assert s != [] ==> Last(s) in s;
    LowerForbidden(s);
    hide Lower, ForbiddenForm, LinkLocalV6;
  }

  /** Spellings that differ in letter case only get one verdict. */
  lemma SpellingsAgree(a: string, b: string)
    requires |a| == |b| && forall i | 0 <= i < |a| :: SameLetter(a[i], b[i]) || SameLetter(b[i], a[i])
    ensures ForbiddenForm(a) <==> ForbiddenForm(b)
  {
    LowerAgrees(a, b);
    LowerForbidden(a);
    LowerForbidden(b);
    hide *;
  }

  lemma LowerAgrees(a: string, b: string)
    requires |a| == |b| && forall i | 0 <= i < |a| :: SameLetter(a[i], b[i]) || SameLetter(b[i], a[i])
    ensures Lower(a) == Lower(b)
  {
    assert forall i | 0 <= i < |a| :: LowerChar(a[i]) == LowerChar(b[i]);
  }

  /** A host as a target can name it. */
  predicate ParsedHost(host: string) {
    PlainHost(host) || BracketedHost(host)
  }

  /** And so on what a target names: its form once the brackets are off decides. */
  lemma ParsedForbiddenIff(host: string)
    requires ParsedHost(host)
    ensures '[' !in StripBrackets(host) && ']' !in StripBrackets(host)
    ensures IsForbiddenAddress(host) <==> ForbiddenForm(StripBrackets(host))
  {
    if BracketedHost(host) {
      var s := host[1..|host| - 1];
      assert host == "[" + s + "]";
      assert forall c | c in s :: IsHex(c) || c == ':';
      ForbiddenIff(s);
    } else {
      assert forall c | c in host :: c !in "[]";
      assert host[0] in host;
      ForbiddenIff(host);
    }
    hide IsForbiddenAddress, ForbiddenForm, IsHex;
  }

  /** The decimal numeral of a number, without leading zeros. */
  function Decimal(n: nat): (s: string)
    ensures s != [] && Digits(s) && Value(s) == n
  {
    if n < 10 then [DigitChar(n)]
    else
      var s := Decimal(n / 10) + [DigitChar(n % 10)];
      assert s[..|s| - 1] == Decimal(n / 10);
      s
  }

  function DigitChar(d: nat): (c: char)
    requires d < 10
    ensures IsDigit(c) && c as int - '0' as int == d
  {
    d as char + '0'
  }

  function Quad(a: byte, b: byte, c: byte, d: byte): string {
    Decimal(a) + "." + (Decimal(b) + "." + (Decimal(c) + "." + Decimal(d)))
  }

  lemma Numerals()
    ensures Decimal(0) == "0" && Decimal(127) == "127" && Decimal(169) == "169" && Decimal(254) == "254"
  {
    assert Decimal(1) == "1" && Decimal(2) == "2" && Decimal(12) == "12" && Decimal(16) == "16" && Decimal(25) == "25";
  }

  /** A word up to its dot: the prefix decides the whole word. */
  lemma PrefixDot(word: string, s: string, rest: string)
    requires '.' !in word && '.' !in s
    ensures word + "." <= s + "." + rest <==> word == s
  {
    var w, t := word + ".", s + "." + rest;
    assert t[|s|] == '.' && w[|word|] == '.';
    assert forall k | 0 <= k < |s| :: t[k] == s[k] && s[k] in s;
    assert forall k | 0 <= k < |word| :: w[k] == word[k] && word[k] in word;
    if w <= t {
      assert w == t[..|w|];
    }
  }

  /**
   * Of the dotted addresses, exactly `127.0.0.0/8`, `169.254.0.0/16` and `0.0.0.0/8` are refused whatever a
   * sheet says.
   */
  lemma ForbiddenQuads(a: byte, b: byte, c: byte, d: byte)
    ensures IsForbiddenAddress(Quad(a, b, c, d)) <==> a == 127 || a == 0 || (a == 169 && b == 254)
  {
    var q := Quad(a, b, c, d);
    var rest := Decimal(b) + "." + (Decimal(c) + "." + Decimal(d));
    var after := Decimal(c) + "." + Decimal(d);
    QuadIsPlain(a, b, c, d);
    Numerals();
    DecimalInjective(a); DecimalInjective(b);
    hide Decimal, Value, IsForbiddenAddress;
    PrefixDot("127", Decimal(a), rest);
    PrefixDot("0", Decimal(a), rest);
    PrefixDot("169", Decimal(a), rest);
    PrefixDot("254", Decimal(b), after);
    TwoWords("169", "254", Decimal(a), rest);
    Constants();
  }

  lemma Constants()
    ensures "127" + "." == "127." && "0" + "." == "0." && "169" + "." + ("254" + ".") == "169.254."
  {
  }

  lemma TwoWords(first: string, second: string, s: string, rest: string)
    requires '.' !in first && '.' !in s
    ensures first + "." + (second + ".") <= s + "." + rest <==> first == s && second + "." <= rest
  {
    PrefixDot(first, s, rest);
    var w, t := first + "." + (second + "."), s + "." + rest;
    assert w[..|first| + 1] == first + ".";
    if w <= t {
      assert first + "." <= t;
      assert t[|s| + 1..] == rest && w[|first| + 1..] == second + ".";
    }
  }

  lemma DecimalInjective(n: nat)
    ensures Decimal(n) == Decimal(0) ==> n == 0
    ensures Decimal(n) == Decimal(127) ==> n == 127
    ensures Decimal(n) == Decimal(169) ==> n == 169
    ensures Decimal(n) == Decimal(254) ==> n == 254
    ensures '.' !in Decimal(n)
  {
  }

  lemma {:induction false} LowerDigits(s: string)
    requires forall c | c in s :: IsDigit(c) || c == '.'
    ensures Lower(s) == s
  {
    assert forall i | 0 <= i < |s| :: s[i] in s;
  }

  /** A dotted address is none of the other forms. */
  lemma QuadIsPlain(a: byte, b: byte, c: byte, d: byte)
    ensures
      var q := Quad(a, b, c, d);
      IsForbiddenAddress(q) <==> "127." <= q || "169.254." <= q || "0." <= q
  {
    var q := Quad(a, b, c, d);
    hide Decimal, Value;
    forall x | x in q ensures IsDigit(x) || x == '.' {
    }
    LowerDigits(q);
    assert q[0] in q;
    assert !Bracketed(q) && StripBrackets(q) == q;
    StartsOtherwise("localhost", q);
    StartsOtherwise("::1", q);
    StartsOtherwise("::", q);
    StartsOtherwise("fe", q);
    StartsOtherwise("::ffff:127.", q);
    StartsOtherwise("::ffff:169.254.", q);
    StartsOtherwise("::ffff:0.", q);
  }

  lemma StartsOtherwise(p: string, q: string)
    requires p != [] && q != [] && p[0] != q[0]
    ensures !(p <= q)
  {
  }
}
