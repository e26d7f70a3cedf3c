/**
 * ParseConf of db/db.go: the libpq keyword/value connection string built from a
 * database configuration, and a reader for it that proves the fields come out in
 * the order they went in.
 */
module Dsn {
  import opened Wrappers

  /** The configuration record ParseConf reads (the config package is not part of this model). */
  datatype DatabaseConfig = DatabaseConfig(
    server: string,
    port: int,
    database: string,
    username: string,
    password: string
  )

  // ------------------------------------------------------------- numbers

  function DigitChar(d: nat): (c: char)
    requires d < 10
    ensures '0' <= c <= '9' && c as int - '0' as int == d
  {
    (d + '0' as int) as char
  }

  predicate IsDigits(s: string) {
    s != [] && forall k :: 0 <= k < |s| ==> '0' <= s[k] <= '9'
  }

  /** Go's %d for a non-negative number: decimal digits, most significant first. */
  function NatToString(n: nat): (s: string)
    ensures IsDigits(s)
    decreases n
  {
    if n < 10 then [DigitChar(n)] else NatToString(n / 10) + [DigitChar(n % 10)]
  }

  /** Go's %d: a minus sign before the digits of a negative number. */
  function IntToString(n: int): (s: string)
    ensures ' ' !in s
    ensures n >= 0 ==> IsDigits(s)
  {
    if n < 0 then "-" + NatToString(-n) else NatToString(n)
  }

  function DigitsValue(s: string): nat
    requires IsDigits(s)
    decreases |s|
  {
    var d := s[|s| - 1] as int - '0' as int;
    if |s| == 1 then d else DigitsValue(s[..|s| - 1]) * 10 + d
  }

  /** Reads back a number written by IntToString. */
  function ParseInt(s: string): Option<int> {
    if s != [] && s[0] == '-' && IsDigits(s[1..]) then Some(-(DigitsValue(s[1..]) as int))
    else if IsDigits(s) then Some(DigitsValue(s))
    else None
  }

  lemma {:induction false} NatRoundTrip(n: nat)
    ensures DigitsValue(NatToString(n)) == n
    decreases n
  {
    if n >= 10 {
      var s := NatToString(n);
      assert s[..|s| - 1] == NatToString(n / 10);
      NatRoundTrip(n / 10);
    }
  }

  /** Every port ParseConf writes reads back as itself. */
  lemma IntRoundTrip(n: int)
    ensures ParseInt(IntToString(n)) == Some(n)
  {
    if n < 0 {
      var s := IntToString(n);
      assert s[1..] == NatToString(-n);
      NatRoundTrip(-n);
    } else {
      NatRoundTrip(n);
    }
  }

  // --------------------------------------------------------- the DSN text

  /**
   * ParseConf: the five fields as keyword=value pairs separated by single spaces,
   * in the order user, password, host, port, dbname, and then sslmode=disable.
   * Values are written as they are, without quoting.
   */
  function ParseConf(dc: DatabaseConfig): (dsn: string)
    ensures |dsn| > 5 && dsn[..5] == "user="
  {
    "user=" + dc.username + " " + (
      "password=" + dc.password + " " + (
        "host=" + dc.server + " " + (
          "port=" + IntToString(dc.port) + " " + (
            "dbname=" + dc.database + " " + "sslmode=disable"))))
  }

  /** The text up to the first space, and what follows that space (empty if there is none). */
  function SplitAtSpace(s: string): (r: (string, string))
    ensures ' ' !in r.0
    decreases |s|
  {
    if s == [] then ([], [])
    else if s[0] == ' ' then ([], s[1..])
    else var t := SplitAtSpace(s[1..]); ([s[0]] + t.0, t.1)
  }

  /** Reads `keyword=value` at the start of `s`, given `tag` = "keyword=": the value and the rest after the next space. */
  function ReadField(s: string, tag: string): Option<(string, string)> {
    if |tag| <= |s| && s[..|tag|] == tag then Some(SplitAtSpace(s[|tag|..])) else None
  }

  /** Reads a connection string in ParseConf's layout back into a configuration. */
  function ParseDsn(s: string): Option<DatabaseConfig> {
    match ReadField(s, "user=")
    case None => None
    case Some((user, r1)) =>
      match ReadField(r1, "password=")
      case None => None
      case Some((password, r2)) =>
        match ReadField(r2, "host=")
        case None => None
        case Some((host, r3)) =>
          match ReadField(r3, "port=")
          case None => None
          case Some((port, r4)) =>
            match ReadField(r4, "dbname=")
            case None => None
            case Some((dbname, r5)) =>
              if r5 == "sslmode=disable" then
                match ParseInt(port)
                case None => None
                case Some(p) => Some(DatabaseConfig(host, p, dbname, user, password))
              else None
  }

  lemma {:induction false} SplitAtSpaceOf(v: string, rest: string)
    requires ' ' !in v
    ensures SplitAtSpace(v + " " + rest) == (v, rest)
    decreases |v|
  {
    if v != [] {
      var s := v + " " + rest;
      assert s[0] == v[0] && v[0] != ' ';
      assert s[1..] == v[1..] + " " + rest;
      SplitAtSpaceOf(v[1..], rest);
      assert [v[0]] + v[1..] == v;
    }
  }

  lemma ReadFieldOf(tag: string, v: string, rest: string)
    requires ' ' !in v
    ensures ReadField(tag + v + " " + rest, tag) == Some((v, rest))
  {
    var s := tag + v + " " + rest;
    assert s[..|tag|] == tag;
    assert s[|tag|..] == v + " " + rest;
    SplitAtSpaceOf(v, rest);
  }

  /** No text value contains a space: the only case in which unquoted values can be read back. */
  predicate SpaceFree(dc: DatabaseConfig) {
    ' ' !in dc.username && ' ' !in dc.password && ' ' !in dc.server && ' ' !in dc.database
  }

  /** A configuration whose values contain no spaces is read back from its DSN unchanged. */
  lemma ParseConfRoundTrip(dc: DatabaseConfig)
    requires SpaceFree(dc)
    ensures ParseDsn(ParseConf(dc)) == Some(dc)
  {
    var port := IntToString(dc.port);
    var r5 := "sslmode=disable";
    var r4 := "dbname=" + dc.database + " " + r5;
    var r3 := "port=" + port + " " + r4;
    var r2 := "host=" + dc.server + " " + r3;
    var r1 := "password=" + dc.password + " " + r2;
    ReadFieldOf("user=", dc.username, r1);
    ReadFieldOf("password=", dc.password, r2);
    ReadFieldOf("host=", dc.server, r3);
    ReadFieldOf("port=", port, r4);
    ReadFieldOf("dbname=", dc.database, r5);
    IntRoundTrip(dc.port);
  }

  /** Distinct space-free configurations give distinct DSNs. */
  lemma ParseConfInjective(a: DatabaseConfig, b: DatabaseConfig)
    requires SpaceFree(a) && SpaceFree(b) && ParseConf(a) == ParseConf(b)
    ensures a == b
  {
    ParseConfRoundTrip(a);
    ParseConfRoundTrip(b);
  }

  /**
   * Because values are not quoted, a space inside a value is taken as a separator:
   * a user name that ends in " password=..." and the password it displaces give the
   * same DSN as a different pair of user name and password.
   */
  lemma UnquotedValuesCollide(dc: DatabaseConfig, x: string, y: string, z: string)
    ensures var a := dc.(username := x + " password=" + y, password := z);
            var b := dc.(username := x, password := y + " password=" + z);
            a != b && ParseConf(a) == ParseConf(b)
  {
    var a := dc.(username := x + " password=" + y, password := z);
    assert |a.username| > |x|;
    var r2 := "host=" + dc.server + " " + (
      "port=" + IntToString(dc.port) + " " + ("dbname=" + dc.database + " " + "sslmode=disable"));
    ShiftedField(x, y, z, r2);
  }

  /** Moving " password=" + y across the space between two values does not change the text. */
  lemma ShiftedField(x: string, y: string, z: string, tail: string)
    ensures "user=" + (x + " password=" + y) + " " + ("password=" + z + " " + tail)
         == "user=" + x + " " + ("password=" + (y + " password=" + z) + " " + tail)
  {
  }
}
