/** `PackageNameFromVersion`, a later revision of ionic/ionic.go that ionic/ionic_test.go
    describes: which npm package provides the Ionic CLI of a requested version. The CLI was
    published as "ionic" up to major version 5 and as "@ionic/cli" from 6 on. Its body
    belongs to another revision of the repository; the parsing rule below (an optional
    "=", an optional "v", then the leading decimal digits are the major version) is an assumed one,
    consistent with every row of the test table, and the rows are proved as lemmas. */
module PackageName {
  import opened Results
  import opened Text

  const OldPackageName := "ionic"
  const NewPackageName := "@ionic/cli"

  /** The first major version published under the scoped name. */
  const FirstScopedMajor := 6

  /** Why no major version could be read from the text. */
  datatype VersionError = NoMajorVersion(version: string)

  /** The operator prefixes a version may carry in front of its major number. */
  const Operators: set<string> := {"", "v", "=", "=v"}

  /** `version` is the operator prefix `op` followed by a digit. */
  predicate DigitAfter(version: string, op: string) {
    |op| < |version| && version[..|op|] == op && IsDigit(version[|op|])
  }

  /** The version without a leading "=" operator and then without a leading "v". */
  function StripOperator(version: string): (s: string)
    ensures |version| >= 2 && version[0] == '=' && version[1] == 'v' ==> s == version[2..]
    ensures version != [] && version[0] == '=' && !(|version| >= 2 && version[1] == 'v') ==> s == version[1..]
    ensures version != [] && version[0] == 'v' ==> s == version[1..]
    ensures version == [] || (version[0] != '=' && version[0] != 'v') ==> s == version
  {
    var afterEq := if |version| > 0 && version[0] == '=' then version[1..] else version;
    if |afterEq| > 0 && afterEq[0] == 'v' then afterEq[1..] else afterEq
  }

  /** The major version: the value of the leading digit run after the operator, read in
      decimal; no digits there is an error. A major version exists exactly when one of
      the operator prefixes is followed by a digit. */
  function MajorVersion(version: string): (r: Result<nat>)
    ensures r.Ok? <==>
      DigitAfter(version, "") || DigitAfter(version, "v") || DigitAfter(version, "=") || DigitAfter(version, "=v")
  {
    var s := StripOperator(version);
    var n := LeadingDigits(s);
    assert n > 0 <==> s != [] && IsDigit(s[0]);
    if n == 0 then Err("no major version") else Ok(DigitsValue(s[..n]))
  }

  /** Any operator prefix, then a digit run, then text that does not start with a digit:
      the major version is the value of the digit run, leading zeros included. */
  lemma MajorVersionOf(prefix: string, digits: string, rest: string)
    requires prefix in Operators
    requires digits != [] && AllDigits(digits)
    requires rest == [] || !IsDigit(rest[0])
    ensures MajorVersion(prefix + digits + rest) == Ok(DigitsValue(digits))
  {
    assert prefix + digits + rest == prefix + (digits + rest);
    StripOperatorOf(prefix, digits + rest);
    LeadingDigitsOfDigitsThen(digits, rest);
    assert (digits + rest)[..|digits|] == digits;
  }

  /** Writing a number in decimal, with or without "=" and "v" in front and with any
      non-digit text after it, gives that number back as the major version. */
  lemma MajorVersionOfDecimal(prefix: string, n: nat, rest: string)
    requires prefix in Operators
    requires rest == [] || !IsDigit(rest[0])
    ensures MajorVersion(prefix + Decimal(n) + rest) == Ok(n)
  {
    MajorVersionOf(prefix, Decimal(n), rest);
    DecimalRoundTrip(n);
  }

  lemma StripOperatorOf(prefix: string, s: string)
    requires prefix in Operators
    requires s == [] || (s[0] != '=' && s[0] != 'v')
    ensures StripOperator(prefix + s) == s
  {
    if prefix == "=v" {
      assert (prefix + s)[1..] == "v" + s;
      assert ("v" + s)[1..] == s;
    } else if prefix != "" {
      assert (prefix + s)[1..] == s;
    } else {
      assert prefix + s == s;
    }
  }

  /** `PackageNameFromVersion`: "latest" is the scoped package; otherwise the major version
      decides, and when it cannot be read the scoped name comes back with an error. */
  function PackageNameFromVersion(version: string): (r: (string, Option<VersionError>))
    ensures version == "latest" ==> r == (NewPackageName, None)
    ensures r.1.Some? <==> version != "latest" && MajorVersion(version).Err?
    ensures r.1.Some? ==> r.1.value == NoMajorVersion(version)
    ensures r.0 == OldPackageName <==>
      version != "latest" && MajorVersion(version).Ok? && MajorVersion(version).value < FirstScopedMajor
    ensures r.0 != OldPackageName ==> r.0 == NewPackageName
  {
    if version == "latest" then (NewPackageName, None)
    else
      match MajorVersion(version)
      case Err(_) => (NewPackageName, Some(NoMajorVersion(version)))
      case Ok(major) => (if major < FirstScopedMajor then OldPackageName else NewPackageName, None)
  }

  /** The rename boundary: any spelling of major version 5 names the old package and any
      spelling of 6 the new one. */
  lemma RenameBoundary(prefix: string, rest: string)
    requires prefix in Operators
    requires rest == [] || !IsDigit(rest[0])
    ensures PackageNameFromVersion(prefix + Decimal(5) + rest) == (OldPackageName, None)
    ensures PackageNameFromVersion(prefix + Decimal(6) + rest) == (NewPackageName, None)
  {
    MajorVersionOfDecimal(prefix, 5, rest);
    MajorVersionOfDecimal(prefix, 6, rest);
    assert Decimal(5) == "5" && Decimal(6) == "6";
  }

  lemma LatestRow()
    ensures PackageNameFromVersion("latest") == (NewPackageName, None)
  {
  }

  lemma SimpleSemverRow()
    ensures PackageNameFromVersion("5.1.14") == (OldPackageName, None)
  {
    assert LeadingDigits("5.1.14") == 1;
  }

  lemma MultiDigitRow()
    ensures PackageNameFromVersion("11.1.14") == (NewPackageName, None)
  {
    DecimalEleven();
    MajorVersionOfDecimal("", 11, ".1.14");
    assert "" + Decimal(11) + ".1.14" == "11.1.14";
  }

  lemma DecimalEleven()
    ensures Decimal(11) == "11"
  {
    assert Decimal(1) == "1";
  }

  lemma VPrefixRow()
    ensures PackageNameFromVersion("v5.1.14") == (OldPackageName, None)
  {
    assert StripOperator("v5.1.14") == "5.1.14";
    assert LeadingDigits("5.1.14") == 1;
  }

  lemma MajorOnlyRow()
    ensures PackageNameFromVersion("7") == (NewPackageName, None)
  {
    assert LeadingDigits("7") == 1;
  }

  lemma MajorMinorRow()
    ensures PackageNameFromVersion("5.6") == (OldPackageName, None)
  {
    assert LeadingDigits("5.6") == 1;
  }

  lemma WildcardMinorRow()
    ensures PackageNameFromVersion("5.x") == (OldPackageName, None)
  {
    assert StripOperator("5.x") == "5.x";
    assert LeadingDigits("5.x") == 1;
    assert "5.x"[..1] == "5";
    assert DigitsValue("5") == 5;
    assert MajorVersion("5.x") == Ok(5);
  }

  lemma EqualsOperatorRow()
    ensures PackageNameFromVersion("=v5.1.14") == (OldPackageName, None)
  {
    assert StripOperator("=v5.1.14") == "5.1.14";
    assert LeadingDigits("5.1.14") == 1;
  }

  lemma MoreSubversionsRow()
    ensures PackageNameFromVersion("6.1.14.6.3") == (NewPackageName, None)
  {
    assert LeadingDigits("6.1.14.6.3") == 1;
  }

  lemma VersionSuffixRow()
    ensures PackageNameFromVersion("5.1.14-alpha.7") == (OldPackageName, None)
  {
    assert LeadingDigits("5.1.14-alpha.7") == 1;
  }

  /** A leading zero is an ordinary digit: "05" is five, not an octal number. */
  lemma ZeroPrefixRow()
    ensures PackageNameFromVersion("05.01.14") == (OldPackageName, None)
  {
    assert LeadingDigits("05.01.14") == 2;
    assert DigitsValue("05") == 5;
  }

  lemma InvalidFormatRow()
    ensures PackageNameFromVersion("beta") == (NewPackageName, Some(NoMajorVersion("beta")))
  {
    assert LeadingDigits("beta") == 0;
  }
}
