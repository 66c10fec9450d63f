/**
 * The small label helpers of the installer console: type labels, entity ids, URLs,
 * state labels, error text, the digest/priority column and the date column.
 */
module Labels {
  import opened Wrappers
  import opened Installer

  /** The console's title, the first line of both the page and the text report. */
  const STATUS_LINE: string := "Apache Sling OSGi Installer"

  /** The four raw types the console knows a display label for. */
  predicate IsKnownType(rtype: string)
  {
    rtype == TYPE_BUNDLE || rtype == TYPE_CONFIG || rtype == TYPE_FILE || rtype == TYPE_PROPERTIES
  }

  /** The four display labels. */
  predicate IsTypeLabel(s: string)
  {
    s == "Bundles" || s == "Configurations" || s == "Files" || s == "Properties"
  }

  /** getType: the display label of a resource's raw type; unknown types are shown as they are. */
  function GetType(rtype: string): string
  {
    if rtype == TYPE_BUNDLE then "Bundles"
    else if rtype == TYPE_CONFIG then "Configurations"
    else if rtype == TYPE_FILE then "Files"
    else if rtype == TYPE_PROPERTIES then "Properties"
    else rtype
  }

  /** The four known raw types get their labels; any other type is its own label. */
  lemma TypeLabelCases(rtype: string)
    ensures var r := GetType(rtype);
            (rtype == TYPE_BUNDLE ==> r == "Bundles") &&
            (rtype == TYPE_CONFIG ==> r == "Configurations") &&
            (rtype == TYPE_FILE ==> r == "Files") &&
            (rtype == TYPE_PROPERTIES ==> r == "Properties") &&
            (!IsKnownType(rtype) ==> r == rtype) &&
            (IsKnownType(rtype) <==> IsTypeLabel(r) && r != rtype)
  {
  }

  /** Distinct raw types get distinct labels, as long as no raw type is spelled like a label. */
  lemma TypeLabelInjective(a: string, b: string)
    requires !IsTypeLabel(a) && !IsTypeLabel(b)
    ensures GetType(a) == GetType(b) <==> a == b
  {
  }

  /** A raw type spelled like a label shares the label of a known type. */
  lemma TypeLabelCollision()
    ensures TYPE_BUNDLE != "Bundles" && GetType(TYPE_BUNDLE) == GetType("Bundles")
  {
  }

  /** String.indexOf(char): the first position of `c` in `s`, or -1. */
  function IndexOf(s: string, c: char): (pos: int)
    ensures -1 <= pos < |s|
  {
    if s == [] then -1
    else if s[0] == c then 0
    else
      var p := IndexOf(s[1..], c);
      if p == -1 then -1 else p + 1
  }

  /** IndexOf finds the first occurrence, and -1 means there is none. */
  lemma {:induction false} IndexOfFirst(s: string, c: char)
    ensures var pos := IndexOf(s, c);
            (pos == -1 <==> c !in s) &&
            (pos >= 0 ==> s[pos] == c && c !in s[..pos])
  {
    if s != [] && s[0] != c {
      IndexOfFirst(s[1..], c);
      var p := IndexOf(s[1..], c);
      if p != -1 {
        assert s[..p + 1] == [s[0]] + s[1..][..p];
      }
    }
  }

  /** The entity id without its namespace: everything up to and including the first ':' is dropped. */
  function StripNamespace(id: string): string
  {
    var pos := IndexOf(id, ':');
    if pos != -1 then id[pos + 1..] else id
  }

  /** The stripped id is the id itself when there is no ':', and otherwise exactly what follows a colon-free prefix and one ':'. */
  lemma StripNamespaceShape(id: string)
    ensures var r := StripNamespace(id);
            (':' !in id ==> r == id) &&
            (':' in id ==>
              |r| < |id| && ':' !in id[..|id| - |r| - 1] && id[|id| - |r| - 1] == ':' && id[|id| - |r|..] == r)
  {
    IndexOfFirst(id, ':');
  }

  /** getEntityId: the id without its namespace, followed by a newline and the alias when there is one. */
  function GetEntityId(rsrc: RegisteredResource, alias: Option<string>): (r: string)
    ensures alias.None? ==> r == StripNamespace(rsrc.entityId)
    ensures alias.Some? ==> r == StripNamespace(rsrc.entityId) + "\n" + alias.value
  {
    var id := StripNamespace(rsrc.entityId);
    if alias.None? then id else id + "\n" + alias.value
  }

  /**
   * For an entity id without newlines, the first newline of the shown id separates the
   * stripped id from the alias, and there is a newline exactly when there is an alias.
   */
  lemma EntityIdSplit(rsrc: RegisteredResource, alias: Option<string>)
    requires '\n' !in rsrc.entityId
    ensures var r := GetEntityId(rsrc, alias);
            var p := IndexOf(r, '\n');
            (p == -1 <==> alias.None?) &&
            (p == -1 ==> r == StripNamespace(rsrc.entityId)) &&
            (p != -1 ==> r[..p] == StripNamespace(rsrc.entityId) && r[p + 1..] == alias.value)
  {
    var id := rsrc.entityId;
    var stripped := StripNamespace(id);
    StripNamespaceShape(id);
    assert forall k :: 0 <= k < |stripped| ==> stripped[k] != '\n' by {
      if ':' in id {
        forall k | 0 <= k < |stripped| ensures stripped[k] != '\n' {
          assert stripped[k] == id[|id| - |stripped| + k];
        }
      }
    }
    if alias.Some? {
      var r := GetEntityId(rsrc, alias);
      var p := IndexOf(r, '\n');
      IndexOfFirst(r, '\n');
      assert r[|stripped|] == '\n';
      assert forall k :: 0 <= k < |stripped| ==> r[k] == stripped[k];
      assert p == |stripped|;
    } else {
      IndexOfFirst(stripped, '\n');
    }
  }

  /** getURL: the URL, followed by the version in parentheses when the resource has one. */
  function GetURL(rsrc: Resource): string
  {
    if rsrc.version.Some? then rsrc.registered.url + " (" + rsrc.version.value + ")"
    else rsrc.registered.url
  }

  /** The shown URL starts with the URL; what follows is empty without a version and the version in parentheses with one. */
  lemma URLShape(rsrc: Resource)
    ensures var r, url := GetURL(rsrc), rsrc.registered.url;
            |r| >= |url| && r[..|url|] == url &&
            (rsrc.version.None? ==> r == url) &&
            (rsrc.version.Some? ==> r[|url|..] == " (" + rsrc.version.value + ")")
  {
  }

  /** Given the URL, the shown URL tells whether there is a version and which one. */
  lemma URLDeterminesVersion(a: Resource, b: Resource)
    requires a.registered.url == b.registered.url
    ensures GetURL(a) == GetURL(b) <==> a.version == b.version
  {
    var n := |a.registered.url|;
    URLShape(a);
    URLShape(b);
    if GetURL(a) == GetURL(b) && a.version.Some? && b.version.Some? {
      var tail := GetURL(a)[n..];
      assert tail == " (" + a.version.value + ")" && tail == " (" + b.version.value + ")";
      assert a.version.value == tail[2..|tail| - 1] == b.version.value;
    }
  }

  /**
   * getState: the state's name, except that an INSTALLED resource is shown as EXCLUDED when it
   * carries the install-excluded attribute, and gets "(*)" appended when it carries install-info.
   */
  function GetState(rsrc: Resource): (r: string)
    ensures rsrc.state != INSTALLED ==> r == StateName(rsrc.state)
    ensures rsrc.state == INSTALLED && rsrc.excluded.None? && rsrc.info.None? ==> r == "INSTALLED"
    ensures rsrc.state == INSTALLED && rsrc.excluded.Some? && rsrc.info.None? ==> r == "EXCLUDED"
    ensures rsrc.state == INSTALLED && rsrc.excluded.None? && rsrc.info.Some? ==> r == "INSTALLED(*)"
    ensures rsrc.state == INSTALLED && rsrc.excluded.Some? && rsrc.info.Some? ==> r == "EXCLUDED(*)"
  {
    var stateInfo := StateName(rsrc.state);
    if rsrc.state == INSTALLED then
      var base := if rsrc.excluded.Some? then "EXCLUDED" else stateInfo;
      if rsrc.info.Some? then base + "(*)" else base
    else stateInfo
  }

  /**
   * Two resources get the same state label exactly when their states agree and, for
   * INSTALLED, they agree on which of the two attributes are present.
   */
  lemma StateLabelDistinguishes(a: Resource, b: Resource)
    ensures GetState(a) == GetState(b) <==>
      a.state == b.state &&
      (a.state == INSTALLED ==> a.excluded.Some? == b.excluded.Some? && a.info.Some? == b.info.Some?)
  {
  }

  /** getError: the error message, or the empty string when there is none. */
  function GetError(rsrc: Resource): (r: string)
    ensures rsrc.error.None? ==> r == ""
    ensures rsrc.error.Some? ==> r == rsrc.error.value
  {
    if rsrc.error.Some? then rsrc.error.value else ""
  }

  predicate IsDigit(c: char)
  {
    '0' <= c <= '9'
  }

  function DigitChar(d: nat): char
    requires d < 10
  {
    ('0' as int + d) as char
  }

  /** The value of a string of decimal digits, read most significant digit first. */
  function DigitsValue(s: string): int
  {
    if s == [] then 0
    else DigitsValue(s[..|s| - 1]) * 10 + (s[|s| - 1] as int - '0' as int)
  }

  /** The decimal digits of a natural number, without leading zeros. */
  function Digits(n: nat): string
  {
    if n < 10 then [DigitChar(n)] else Digits(n / 10) + [DigitChar(n % 10)]
  }

  /** Digits writes at least one digit, no leading zero, and reads back as the number. */
  lemma {:induction false} DigitsReadBack(n: nat)
    ensures var r := Digits(n);
            |r| > 0 && (forall i :: 0 <= i < |r| ==> IsDigit(r[i])) &&
            (r[0] == '0' ==> n == 0) &&
            DigitsValue(r) == n
  {
    if n >= 10 {
      DigitsReadBack(n / 10);
      var r := Digits(n);
      assert r[..|r| - 1] == Digits(n / 10);
    }
  }

  /** String.valueOf(int): an optional minus sign followed by the digits. */
  function Decimal(n: int): string
  {
    if n < 0 then "-" + Digits(-n) else Digits(n)
  }

  /** Decimal writes something, and ParseDecimal reads the number back from it. */
  lemma DecimalReadsBack(n: int)
    ensures |Decimal(n)| > 0 && ParseDecimal(Decimal(n)) == n
  {
    if n < 0 {
      DigitsReadBack(-n);
      assert Decimal(n)[1..] == Digits(-n);
    } else {
      DigitsReadBack(n);
    }
  }

  /** Decimal writes only a minus sign and digits, so never a '/'. */
  lemma DecimalHasNoSlash(n: int)
    ensures forall i :: 0 <= i < |Decimal(n)| ==> Decimal(n)[i] != '/'
  {
    if n < 0 {
      DigitsReadBack(-n);
      assert Decimal(n) == "-" + Digits(-n);
    } else {
      DigitsReadBack(n);
    }
  }

  /** Reads back what Decimal writes. */
  function ParseDecimal(s: string): int
  {
    if |s| > 0 && s[0] == '-' then -DigitsValue(s[1..]) else DigitsValue(s)
  }

  /** getInfo: the digest, a '/' and the priority in decimal. */
  function GetInfo(rsrc: RegisteredResource): string
  {
    rsrc.digest + "/" + Decimal(rsrc.priority)
  }

  /** The digest/priority text splits back into the digest, the '/' and the priority. */
  lemma InfoReadsBack(rsrc: RegisteredResource)
    ensures var r := GetInfo(rsrc);
            var n := |rsrc.digest|;
            |r| > n + 1 && r[..n] == rsrc.digest && r[n] == '/' && ParseDecimal(r[n + 1..]) == rsrc.priority
  {
    var r := GetInfo(rsrc);
    DecimalReadsBack(rsrc.priority);
    assert r[|rsrc.digest| + 1..] == Decimal(rsrc.priority);
  }

  /** The digest/priority column determines both the digest and the priority, whatever the digest holds. */
  lemma InfoInjective(a: RegisteredResource, b: RegisteredResource)
    requires GetInfo(a) == GetInfo(b)
    ensures a.digest == b.digest && a.priority == b.priority
  {
    var s := GetInfo(a);
    var da, db := |a.digest|, |b.digest|;
    InfoReadsBack(a);
    InfoReadsBack(b);
    DecimalHasNoSlash(a.priority);
    DecimalHasNoSlash(b.priority);
    assert forall i :: da < i < |s| ==> s[i] == Decimal(a.priority)[i - da - 1];
    assert forall i :: db < i < |s| ==> s[i] == Decimal(b.priority)[i - db - 1];
    assert da == db;
    assert a.digest == s[..da] == b.digest;
  }

  /**
   * formatDate: "-" for the time -1, otherwise the date formatter's text. The formatter
   * itself is the parameter `fmt`.
   */
  function FormatDate(fmt: int -> string, time: int): (r: string)
    ensures time == -1 ==> r == "-"
    ensures time != -1 ==> r == fmt(time)
  {
    if time == -1 then "-" else fmt(time)
  }
}
