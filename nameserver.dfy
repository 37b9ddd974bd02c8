/** Locating the editor host: the Swift runtimes read the first valid
    `nameserver` entry of resolv.conf (Inertia.swift, Vibe.swift) and the
    Compose runtime checks candidate addresses with an IPv4 pattern
    (MainActivity.kt). The file's contents are a parameter here. */
module NameServer {
  import opened Wrappers
  import opened Strings

  /** Swift's `Int(_:)` on a decimal string: an optional sign and then at
      least one ASCII digit. (Values outside `Int`'s range, which Swift
      rejects, are outside 0...255 as well, so the model keeps them.) */
  function SwiftInt(s: string): (r: Option<int>)
    ensures r.Some? && s != [] && IsDigit(s[0]) ==> r.value >= 0
  {
    var signed := s != [] && (s[0] == '+' || s[0] == '-');
    var digits := if signed then s[1..] else s;
    if digits == [] || !AllDigits(digits) then None
    else
      var value: int := DecimalValue(digits);
      if signed && s[0] == '-' then Some(-value) else Some(value)
  }

  predicate IsOctet(piece: string)
  {
    var v := SwiftInt(piece);
    v.Some? && 0 <= v.value <= 255
  }

  /** `isValidIPAddress`: split on ".", dropping empty pieces, gives four
      pieces that each parse to an integer in 0...255. */
  predicate IsValidIPAddress(address: string)
  {
    var parts := SplitOmittingEmpty(address, '.');
    |parts| == 4 && forall i :: 0 <= i < 4 ==> IsOctet(parts[i])
  }

  /** The address a resolv.conf line offers: the second space-separated
      field of a line that starts with "nameserver", trimmed. */
  function Candidate(line: string): Option<string>
  {
    if !StartsWith(line, "nameserver") then None
    else
      var components := SplitOn(line, ' ');
      if |components| > 1 then Some(Trim(components[1])) else None
  }

  /** The line's candidate, when it is a valid address. */
  function ValidCandidate(line: string): (r: Option<string>)
    ensures r.Some? ==> Candidate(line) == r
  {
    var c := Candidate(line);
    if c.Some? && IsValidIPAddress(c.value) then c else None
  }

  /** Line `i` is the first to offer a valid address. */
  predicate FirstValidAt(lines: seq<string>, i: int)
    requires 0 <= i < |lines|
  {
    ValidCandidate(lines[i]).Some? && forall j :: 0 <= j < i ==> ValidCandidate(lines[j]).None?
  }

  /** The valid addresses the file's lines offer, in file order: what the
      loop of `getHostIPAddressFromResolvConf` collects in `potentialIPs`. */
  function ValidAddresses(lines: seq<string>): (r: seq<string>)
    ensures |r| <= |lines|
    decreases |lines|
  {
    if lines == [] then []
    else
      var c := ValidCandidate(lines[|lines| - 1]);
      ValidAddresses(lines[..|lines| - 1]) + (if c.Some? then [c.value] else [])
  }

  /** No address is collected exactly when no line offers a valid one. */
  lemma {:induction false} ValidAddressesEmpty(lines: seq<string>)
    ensures ValidAddresses(lines) == [] <==> forall i :: 0 <= i < |lines| ==> ValidCandidate(lines[i]).None?
    decreases |lines|
  {
    if lines != [] {
      var init := lines[..|lines| - 1];
      var c := ValidCandidate(lines[|lines| - 1]);
      ValidAddressesEmpty(init);
      assert ValidAddresses(lines) == ValidAddresses(init) + (if c.Some? then [c.value] else []);
      assert forall i :: 0 <= i < |init| ==> init[i] == lines[i];
    }
  }

  /** Every collected address is valid. */
  lemma {:induction false} ValidAddressesValid(lines: seq<string>, k: nat)
    requires k < |ValidAddresses(lines)|
    ensures IsValidIPAddress(ValidAddresses(lines)[k])
    decreases |lines|
  {
    var init := lines[..|lines| - 1];
    if k < |ValidAddresses(init)| {
      ValidAddressesValid(init, k);
    }
  }

  /** The first collected address comes from the first line that offers a
      valid one. */
  lemma {:induction false} ValidAddressesFirst(lines: seq<string>)
    requires ValidAddresses(lines) != []
    ensures exists i :: (0 <= i < |lines| && FirstValidAt(lines, i) &&
      ValidCandidate(lines[i]) == Some(ValidAddresses(lines)[0]))
    decreases |lines|
  {
    var init := lines[..|lines| - 1];
    if ValidAddresses(init) != [] {
      ValidAddressesFirst(init);
      var i :| 0 <= i < |init| && FirstValidAt(init, i) && ValidCandidate(init[i]) == Some(ValidAddresses(init)[0]);
      assert lines[i] == init[i];
      assert forall j :: 0 <= j < i ==> lines[j] == init[j];
      assert FirstValidAt(lines, i);
    } else {
      ValidAddressesEmpty(init);
      var i := |lines| - 1;
      assert forall j :: 0 <= j < i ==> lines[j] == init[j];
      assert FirstValidAt(lines, i);
    }
  }

  /** The body of the resolv.conf loop for one line: the trimmed second
      field of a "nameserver" line, when it is a valid address. */
  method LineAddress(line: string) returns (ipAddress: Option<string>)
    ensures ipAddress == ValidCandidate(line)
  {
    ipAddress := None;
    if StartsWith(line, "nameserver") {
      var components := SplitOn(line, ' ');
      if |components| > 1 {
        var candidate := Trim(components[1]);
        if IsValidIPAddress(candidate) {
          ipAddress := Some(candidate);
        }
      }
    }
  }

  /** The address the file yields: the first collected one, if any. */
  function FirstValidAddress(lines: seq<string>): (r: Option<string>)
    ensures r.Some? ==> IsValidIPAddress(r.value)
  {
    var addresses := ValidAddresses(lines);
    if addresses == [] then None
    else
      ValidAddressesValid(lines, 0);
      Some(addresses[0])
  }

  /** The file yields no address exactly when no line offers a valid one,
      and otherwise the address of the first line that does. */
  lemma FirstValidAddressIsFirst(lines: seq<string>)
    ensures FirstValidAddress(lines).None? <==> forall i :: 0 <= i < |lines| ==> ValidCandidate(lines[i]).None?
    ensures FirstValidAddress(lines).Some? ==>
      exists i :: (0 <= i < |lines| && FirstValidAt(lines, i) && ValidCandidate(lines[i]) == FirstValidAddress(lines))
  {
    ValidAddressesEmpty(lines);
    if ValidAddresses(lines) != [] {
      ValidAddressesFirst(lines);
    }
  }

  /** `getHostIPAddressFromResolvConf` after the file was read: the first
      valid nameserver address, or none when no line offers one (see
      `FirstValidAddressIsFirst`). */
  method HostFromResolvConf(resolvContents: string) returns (host: Option<string>)
    ensures host == FirstValidAddress(SplitOn(resolvContents, '\n'))
  {
    var lines := SplitOn(resolvContents, '\n');
    host := FirstAddressOfLines(lines);
  }

  /** The loop over the file's lines: every valid address is collected in
      `potentialIPs`, and the first one is the result. */
  method FirstAddressOfLines(lines: seq<string>) returns (host: Option<string>)
    ensures host == FirstValidAddress(lines)
  {
    var potentialIPs: seq<string> := [];
    for k := 0 to |lines|
      invariant potentialIPs == ValidAddresses(lines[..k])
    {
      assert lines[..k + 1][..k] == lines[..k];
      var ipAddress := LineAddress(lines[k]);
      if ipAddress.Some? {
        potentialIPs := potentialIPs + [ipAddress.value];
      }
    }
    assert lines[..|lines|] == lines;
    if potentialIPs != [] {
      host := Some(potentialIPs[0]);
    } else {
      host := None;
    }
  }

  /** One alternative of `25[0-5]|2[0-4]\d|[01]?\d\d?`, the octet of the
      Compose runtime's IPv4 pattern. */
  predicate MatchesOctetPattern(p: string)
  {
    (|p| == 3 && p[0] == '2' && p[1] == '5' && '0' <= p[2] <= '5') ||
    (|p| == 3 && p[0] == '2' && '0' <= p[1] <= '4' && IsDigit(p[2])) ||
    (|p| == 1 && IsDigit(p[0])) ||
    (|p| == 2 && IsDigit(p[0]) && IsDigit(p[1])) ||
    (|p| == 3 && (p[0] == '0' || p[0] == '1') && IsDigit(p[1]) && IsDigit(p[2]))
  }

  /** The octet pattern accepts exactly the one- to three-digit numerals
      with value at most 255, leading zeros included. */
  lemma OctetPatternExact(p: string)
    ensures MatchesOctetPattern(p) <==> 1 <= |p| <= 3 && AllDigits(p) && DecimalValue(p) <= 255
  {
    if 1 <= |p| <= 3 && AllDigits(p) {
      assert DecimalValue(p[..0]) == 0;
      assert p[..1][..0] == p[..0];
      assert DecimalValue(p[..1]) == DigitValue(p[0]);
      if |p| >= 2 {
        assert p[..2][..1] == p[..1];
        assert DecimalValue(p[..2]) == DigitValue(p[0]) * 10 + DigitValue(p[1]);
      }
      if |p| == 3 {
        assert p[..3] == p;
        assert DecimalValue(p) == DigitValue(p[0]) * 100 + DigitValue(p[1]) * 10 + DigitValue(p[2]);
      }
    }
  }

  /** `isValidIPv4`: `^(O\.){3}O$` with the octet pattern O; since O
      never matches a '.', this is four dot-separated octets. */
  predicate IsValidIPv4(ip: string)
  {
    var parts := SplitOn(ip, '.');
    |parts| == 4 && forall i :: 0 <= i < 4 ==> MatchesOctetPattern(parts[i])
  }

  lemma {:induction false} NonEmptyWhenAllNonEmpty(pieces: seq<string>)
    requires forall i :: 0 <= i < |pieces| ==> pieces[i] != ""
    ensures NonEmpty(pieces) == pieces
    decreases |pieces|
  {
    if pieces != [] {
      NonEmptyWhenAllNonEmpty(pieces[1..]);
    }
  }

  /** Every address the Compose pattern accepts is accepted by the Swift
      validator too. */
  lemma Ipv4PatternImpliesValid(ip: string)
    requires IsValidIPv4(ip)
    ensures IsValidIPAddress(ip)
  {
    var parts := SplitOn(ip, '.');
    forall i | 0 <= i < 4
      ensures parts[i] != "" && IsOctet(parts[i])
    {
      OctetPatternExact(parts[i]);
    }
    NonEmptyWhenAllNonEmpty(parts);
  }

  lemma DecimalOfOctet(n: nat)
    requires n <= 255
    ensures 1 <= |Decimal(n)| <= 3 && DecimalValue(Decimal(n)) == n
  {
    DecimalRoundTrip(n);
    if n >= 10 {
      if n >= 100 {
        assert Decimal(n / 10) == Decimal(n / 100) + [DigitChar(n / 10 % 10)];
      }
    }
  }

  /** Every dotted-quad rendering of four octets passes the Compose
      pattern (and so the Swift validator). */
  lemma {:induction false} DottedQuadValid(a: nat, b: nat, c: nat, d: nat)
    requires a <= 255 && b <= 255 && c <= 255 && d <= 255
    ensures IsValidIPv4(Join([Decimal(a), Decimal(b), Decimal(c), Decimal(d)], '.'))
    ensures IsValidIPAddress(Join([Decimal(a), Decimal(b), Decimal(c), Decimal(d)], '.'))
  {
    var parts := [Decimal(a), Decimal(b), Decimal(c), Decimal(d)];
    forall i | 0 <= i < 4 ensures Excludes(parts[i], '.') {
    }
    SplitJoin(parts, '.');
    DecimalOfOctet(a);
    DecimalOfOctet(b);
    DecimalOfOctet(c);
    DecimalOfOctet(d);
    forall i | 0 <= i < 4 ensures MatchesOctetPattern(parts[i]) {
      OctetPatternExact(parts[i]);
    }
    Ipv4PatternImpliesValid(Join(parts, '.'));
  }

  /** Four pieces the Swift validator accepts one by one. */
  predicate SwiftPieces(parts: seq<string>)
  {
    |parts| == 4 && forall i :: 0 <= i < 4 ==> parts[i] != "" && Excludes(parts[i], '.') && IsOctet(parts[i])
  }

  /** The Swift validator accepts the four pieces joined with dots. */
  lemma SwiftPiecesValid(parts: seq<string>)
    requires SwiftPieces(parts)
    ensures IsValidIPAddress(Join(parts, '.'))
  {
    SplitJoin(parts, '.');
    NonEmptyWhenAllNonEmpty(parts);
  }

  /** The Swift validator is laxer than the Compose pattern: it drops
      empty pieces, so an extra dot anywhere, as in `1..2.3.4` or
      `.1.2.3.4`, still passes it, while the pattern rejects it. */
  lemma SwiftValidatorDropsEmptyPieces(parts: seq<string>, j: nat)
    requires SwiftPieces(parts) && j <= 4
    ensures var address := Join(parts[..j] + [""] + parts[j..], '.');
      IsValidIPAddress(address) && !IsValidIPv4(address)
  {
    var lax := parts[..j] + [""] + parts[j..];
    assert forall i :: 0 <= i < |lax| ==> Excludes(lax[i], '.');
    SplitJoin(lax, '.');
    NonEmptyDropsInserted(parts, j);
  }

  /** Dropping empty pieces undoes the insertion of one. */
  lemma {:induction false} NonEmptyDropsInserted(parts: seq<string>, j: nat)
    requires j <= |parts| && forall i :: 0 <= i < |parts| ==> parts[i] != ""
    ensures NonEmpty(parts[..j] + [""] + parts[j..]) == parts
    decreases j
  {
    var lax := parts[..j] + [""] + parts[j..];
    if j == 0 {
      assert lax == [""] + parts;
      assert lax[1..] == parts;
      NonEmptyWhenAllNonEmpty(parts);
    } else {
      var tail := parts[1..];
      assert lax[1..] == tail[..j - 1] + [""] + tail[j - 1..];
      NonEmptyDropsInserted(tail, j - 1);
      assert lax[0] == parts[0];
      assert [parts[0]] + tail == parts;
    }
  }

  /** ... and it accepts a piece with a plus sign, as in `+1.2.3.4`, which
      the pattern rejects. */
  lemma SwiftValidatorAcceptsSign(parts: seq<string>)
    requires SwiftPieces(parts) && parts[0][0] == '+'
    ensures IsValidIPAddress(Join(parts, '.')) && !IsValidIPv4(Join(parts, '.'))
  {
    SwiftPiecesValid(parts);
    SplitJoin(parts, '.');
    assert !MatchesOctetPattern(parts[0]);
  }
}
