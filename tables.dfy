/** The line-oriented table parsers: a generic driver (_parse_table_with_regex)
    and the six table shapes of an audit log that it is applied to. */
module Tables {
  import opened Text

  // ---------------------------------------------------------------------------
  // The generic driver
  // ---------------------------------------------------------------------------

  /** What the driver makes of one line: nothing when the stripped line is
      empty or the skip predicate accepts it, and otherwise the row grammar's
      record, if the grammar matches the stripped line. */
  function Outcome<R>(line: string, skip: string -> bool, row: string -> Option<R>): Option<R> {
    var l := Strip(line);
    if l == [] || skip(l) then None else row(l)
  }

  /** The outcome of each line. */
  function Outcomes<R>(lines: seq<string>, skip: string -> bool, row: string -> Option<R>): (o: seq<Option<R>>)
    ensures |o| == |lines|
    ensures forall i :: 0 <= i < |lines| ==> o[i] == Outcome(lines[i], skip, row)
  {
    seq(|lines|, i requires 0 <= i < |lines| => Outcome(lines[i], skip, row))
  }

  /** The records among the outcomes, in order. */
  function Records<R>(o: seq<Option<R>>): seq<R>
    decreases |o|
  {
    if o == [] then []
    else
      var last := o[|o| - 1];
      Records(o[..|o| - 1]) + (if last.Some? then [last.value] else [])
  }

  /** The positions of the records among the outcomes. */
  function Hits<R>(o: seq<Option<R>>): seq<nat>
    decreases |o|
  {
    if o == [] then []
    else
      var n := |o| - 1;
      Hits(o[..n]) + (if o[n].Some? then [n] else [])
  }

  /** Hits lists, in increasing order, exactly the positions that hold a record. */
  lemma {:induction false} HitsAreRecords<R>(o: seq<Option<R>>)
    ensures forall k :: 0 <= k < |Hits(o)| ==> Hits(o)[k] < |o|
    ensures forall k, l :: 0 <= k < l < |Hits(o)| ==> Hits(o)[k] < Hits(o)[l]
    ensures forall i :: 0 <= i < |o| ==> (o[i].Some? <==> i in Hits(o))
    decreases |o|
  {
    if o != [] {
      var n := |o| - 1;
      HitsAreRecords(o[..n]);
      assert forall i :: 0 <= i < n ==> o[..n][i] == o[i];
    }
  }

  /** The k-th record is the one at the k-th hit. */
  lemma {:induction false} RecordsAtHits<R>(o: seq<Option<R>>)
    ensures |Records(o)| == |Hits(o)|
    ensures forall k :: 0 <= k < |Hits(o)| ==> Hits(o)[k] < |o| && o[Hits(o)[k]] == Some(Records(o)[k])
    decreases |o|
  {
    if o != [] {
      var n := |o| - 1;
      RecordsAtHits(o[..n]);
      assert forall i :: 0 <= i < n ==> o[..n][i] == o[i];
    }
  }

  /** The records the driver collects from the given lines. */
  function Extract<R>(lines: seq<string>, skip: string -> bool, row: string -> Option<R>): seq<R> {
    Records(Outcomes(lines, skip, row))
  }

  /** The lines the driver keeps. */
  function Kept<R>(lines: seq<string>, skip: string -> bool, row: string -> Option<R>): seq<nat> {
    Hits(Outcomes(lines, skip, row))
  }

  /** Records come in the order of the lines they come from, at most one per
      line: the k-th record is what the row grammar makes of the k-th kept line,
      and a line is kept exactly when, stripped, it is not empty, the skip
      predicate rejects it and the grammar matches it. */
  lemma ExtractKept<R>(lines: seq<string>, skip: string -> bool, row: string -> Option<R>)
    ensures |Extract(lines, skip, row)| == |Kept(lines, skip, row)|
    ensures forall k, l :: 0 <= k < l < |Kept(lines, skip, row)| ==> Kept(lines, skip, row)[k] < Kept(lines, skip, row)[l]
    ensures forall k :: 0 <= k < |Kept(lines, skip, row)| ==>
              var i := Kept(lines, skip, row)[k];
              && i < |lines|
              && Strip(lines[i]) != [] && !skip(Strip(lines[i]))
              && row(Strip(lines[i])) == Some(Extract(lines, skip, row)[k])
    ensures forall i :: 0 <= i < |lines| ==>
              (i in Kept(lines, skip, row) <==> Strip(lines[i]) != [] && !skip(Strip(lines[i])) && row(Strip(lines[i])).Some?)
  {
    var o := Outcomes(lines, skip, row);
    HitsAreRecords(o);
    RecordsAtHits(o);
  }

  /** _parse_table_with_regex: strips each line of the text, drops it when it is
      empty or skipped, and otherwise keeps what the row grammar makes of it, if
      the grammar matches. */
  method ParseTable<R>(text: string, skip: string -> bool, row: string -> Option<R>) returns (rows: seq<R>)
    ensures rows == Extract(SplitLines(text), skip, row)
  {
    var lines := SplitLines(text);
    ghost var o := Outcomes(lines, skip, row);
    rows := [];
    var i := 0;
    while i < |lines|
      invariant i <= |lines|
      invariant rows == Records(o[..i])
    {
      var line := Strip(lines[i]);
      assert o[..i + 1][..i] == o[..i];
      i := i + 1;
      if line == [] || skip(line) {
        continue;
      }
      var m := row(line);
      if m.Some? {
        rows := rows + [m.value];
      }
    }
    assert o[..|lines|] == o;
  }

  // ---------------------------------------------------------------------------
  // Field shapes used by the row grammars
  // ---------------------------------------------------------------------------

  /** \d{4}-\d{2}-\d{2} */
  predicate IsDate(s: string) {
    && |s| == 10 && s[4] == '-' && s[7] == '-'
    && IsDigit(s[0]) && IsDigit(s[1]) && IsDigit(s[2]) && IsDigit(s[3])
    && IsDigit(s[5]) && IsDigit(s[6]) && IsDigit(s[8]) && IsDigit(s[9])
  }

  /** \d{2}:\d{2}:\d{2} */
  predicate IsTime(s: string) {
    && |s| == 8 && s[2] == ':' && s[5] == ':'
    && IsDigit(s[0]) && IsDigit(s[1]) && IsDigit(s[3]) && IsDigit(s[4])
    && IsDigit(s[6]) && IsDigit(s[7])
  }

  /** A kb figure as the log writes it, \d+\.\d+: the digits before and after
      the point, kept as text. */
  datatype Decimal = Decimal(whole: string, fraction: string)

  predicate ValidDecimal(d: Decimal) {
    IsDigits(d.whole) && IsDigits(d.fraction)
  }

  function ShowDecimal(d: Decimal): string {
    d.whole + "." + d.fraction
  }

  /** The number of leading ASCII digits of s. */
  function DigitRun(s: string): (n: nat)
    ensures n <= |s|
    ensures forall i :: 0 <= i < n ==> IsDigit(s[i])
    ensures n < |s| ==> !IsDigit(s[n])
  {
    if s != [] && IsDigit(s[0]) then 1 + DigitRun(s[1..]) else 0
  }

  /** A whole field matched by \d+\.\d+, or None. */
  function ParseDecimal(s: string): Option<Decimal> {
    var k := DigitRun(s);
    if 0 < k && k + 1 < |s| && s[k] == '.' && IsDigits(s[k + 1..]) then
      Some(Decimal(s[..k], s[k + 1..]))
    else None
  }

  /** ParseDecimal accepts exactly the texts of valid decimals, and reads back
      the decimal that was written. */
  lemma DecimalRoundTrip(d: Decimal)
    requires ValidDecimal(d)
    ensures ParseDecimal(ShowDecimal(d)) == Some(d)
  {
    var s := ShowDecimal(d);
    var k := DigitRun(s);
    assert s[|d.whole|] == '.';
    assert forall i :: 0 <= i < |d.whole| ==> s[i] == d.whole[i];
    assert k == |d.whole|;
    assert s[..k] == d.whole;
    assert s[k + 1..] == d.fraction;
  }

  /** Whatever ParseDecimal accepts is a valid decimal written out. */
  lemma ParseDecimalShows(s: string)
    requires ParseDecimal(s).Some?
    ensures ValidDecimal(ParseDecimal(s).value) && ShowDecimal(ParseDecimal(s).value) == s
  {
    var k := DigitRun(s);
    assert s == s[..k] + "." + s[k + 1..];
  }

  lemma DigitsNoSpace(s: string)
    requires IsDigits(s)
    ensures NoSpace(s)
  {
  }

  lemma DecimalNoSpace(s: string)
    requires ParseDecimal(s).Some?
    ensures s != [] && NoSpace(s)
  {
    var k := DigitRun(s);
    assert forall i :: k < i < |s| ==> s[i] == s[k + 1..][i - k - 1];
  }

  /** The remainder after the leading fields of a row is its last field, when
      it has no whitespace in it. */
  lemma LastField(line: string, n: nat)
    requires IsStripped(line) && n > 0 && TakeFields(line, n).Some?
    requires NoSpace(TakeFields(line, n).value.1)
    ensures |Tokens(line)| == n + 1
    ensures TakeFields(line, n).value.0 == Tokens(line)[..n]
    ensures TakeFields(line, n).value.1 == Tokens(line)[n]
  {
    TakeFieldsTokens(line, n);
    OneToken(TakeFields(line, n).value.1);
  }

  /** Conversely, a row of n + 1 tokens has its last token as remainder. */
  lemma LastToken(line: string, n: nat)
    requires IsStripped(line) && n > 0 && |Tokens(line)| == n + 1
    ensures TakeFields(line, n).Some?
    ensures TakeFields(line, n).value.0 == Tokens(line)[..n]
    ensures TakeFields(line, n).value.1 == Tokens(line)[n]
  {
    TakeFieldsTokens(line, n);
    var rest := TakeFields(line, n).value.1;
    OneToken(rest);
    assert Tokens(rest) == Tokens(line)[n..];
  }

  // ---------------------------------------------------------------------------
  // Logins: report of all logins
  // ---------------------------------------------------------------------------

  datatype LoginRecord = LoginRecord(
    loginDate: string, loginTime: string, logoutDate: string, logoutTime: string,
    username: string, session: string, ip: string, geography: string)

  /** parse_logins_table's skip: column titles and any line naming Username. */
  predicate LoginsSkip(line: string) {
    StartsWith(line, "Login Date") || Contains(line, "Username")
  }

  /** The logins row grammar on a stripped line: a date, a time and five more
      fields, each followed by whitespace; the geography is the rest. */
  function LoginRow(line: string): Option<LoginRecord> {
    var m := TakeFields(line, 7);
    if m.None? || !IsDate(m.value.0[0]) || !IsTime(m.value.0[1]) then None
    else
      var f := m.value.0;
      Some(LoginRecord(f[0], f[1], f[2], f[3], f[4], f[5], f[6], m.value.1))
  }

  /** A stripped line is a logins row exactly when it has more than seven
      whitespace-separated tokens, the first a date and the second a time; the
      seven fields are its first seven tokens and the geography holds the rest. */
  lemma LoginRowTokens(line: string)
    requires IsStripped(line) && line != []
    ensures LoginRow(line).Some? <==>
              |Tokens(line)| > 7 && IsDate(Tokens(line)[0]) && IsTime(Tokens(line)[1])
    ensures LoginRow(line).Some? ==>
              var r, t := LoginRow(line).value, Tokens(line);
              && r.loginDate == t[0] && r.loginTime == t[1] && r.logoutDate == t[2]
              && r.logoutTime == t[3] && r.username == t[4] && r.session == t[5] && r.ip == t[6]
              && r.geography != [] && IsStripped(r.geography) && Tokens(r.geography) == t[7..]
  {
    TakeFieldsTokens(line, 7);
    var m := TakeFields(line, 7);
    if m.Some? {
      var t := Tokens(line);
      var f := m.value.0;
      assert f == t[..7];
      assert f[0] == t[0] && f[1] == t[1] && f[2] == t[2] && f[3] == t[3];
      assert f[4] == t[4] && f[5] == t[5] && f[6] == t[6];
    }
  }

  /** A logins row as the log writes it: the fields separated by spaces. */
  function ShowLogin(r: LoginRecord): string {
    Unwords([r.loginDate, r.loginTime, r.logoutDate, r.logoutTime, r.username, r.session, r.ip, r.geography])
  }

  /** The records a logins row can carry: a date, a time, five words and a
      non-empty stripped geography. */
  predicate ValidLogin(r: LoginRecord) {
    && IsDate(r.loginDate) && IsTime(r.loginTime)
    && Words([r.logoutDate, r.logoutTime, r.username, r.session, r.ip])
    && r.geography != [] && IsStripped(r.geography)
  }

  /** Reading a written logins row gives its record back. */
  lemma LoginRoundTrip(r: LoginRecord)
    requires ValidLogin(r)
    ensures LoginRow(ShowLogin(r)) == Some(r)
  {
    var ts := [r.loginDate, r.loginTime, r.logoutDate, r.logoutTime, r.username, r.session, r.ip];
    assert Words(ts) by {
      assert forall i :: 2 <= i < 7 ==> ts[i] == [r.logoutDate, r.logoutTime, r.username, r.session, r.ip][i - 2];
    }
    assert ts + [r.geography] == [r.loginDate, r.loginTime, r.logoutDate, r.logoutTime, r.username, r.session, r.ip, r.geography];
    TakeFieldsUnwords(ts, r.geography);
  }

  /** parse_logins_table. */
  method ParseLogins(text: string) returns (rows: seq<LoginRecord>)
    ensures rows == Extract(SplitLines(text), LoginsSkip, LoginRow)
  {
    rows := ParseTable(text, LoginsSkip, LoginRow);
  }

  // ---------------------------------------------------------------------------
  // Login summary
  // ---------------------------------------------------------------------------

  datatype SummaryRecord = SummaryRecord(username: string, successful: nat, failures: nat)

  /** parse_login_summary_table's skip: column titles and the section title. */
  predicate SummarySkip(line: string) {
    StartsWith(line, "Username") || StartsWith(line, "Login summary")
  }

  /** ^\s*(\S+)\s+(\d+)\s+(\d+)\s*$ on a stripped line, with both counts
      converted to integers. */
  function SummaryRow(line: string): Option<SummaryRecord> {
    var m := TakeFields(line, 2);
    if m.None? || !IsDigits(m.value.0[1]) || !IsDigits(m.value.1) then None
    else Some(SummaryRecord(m.value.0[0], DigitsValue(m.value.0[1]), DigitsValue(m.value.1)))
  }

  /** A stripped line is a summary row exactly when it is three tokens, the
      last two numerals; the record holds the name and the numerals' values. */
  lemma SummaryRowTokens(line: string)
    requires IsStripped(line) && line != []
    ensures SummaryRow(line).Some? <==>
              |Tokens(line)| == 3 && IsDigits(Tokens(line)[1]) && IsDigits(Tokens(line)[2])
    ensures SummaryRow(line).Some? ==>
              var t := Tokens(line);
              SummaryRow(line).value == SummaryRecord(t[0], DigitsValue(t[1]), DigitsValue(t[2]))
  {
    var m := TakeFields(line, 2);
    if m.Some? && IsDigits(m.value.1) {
      LastField(line, 2);
    }
    if |Tokens(line)| == 3 {
      LastToken(line, 2);
    }
  }

  /** A summary row as the log writes it: the name and the two counts,
      separated by spaces. */
  function ShowSummary(r: SummaryRecord): string {
    Unwords([r.username, NatDigits(r.successful), NatDigits(r.failures)])
  }

  /** Reading a written summary row gives its record back, whatever the counts,
      for any name without whitespace. */
  lemma SummaryRoundTrip(r: SummaryRecord)
    requires r.username != [] && NoSpace(r.username)
    ensures SummaryRow(ShowSummary(r)) == Some(r)
  {
    var a, b := NatDigits(r.successful), NatDigits(r.failures);
    assert [r.username, a] + [b] == [r.username, a, b];
    TakeFieldsUnwords([r.username, a], b);
    DigitsValueOfNatDigits(r.successful);
    DigitsValueOfNatDigits(r.failures);
  }

  /** parse_login_summary_table. */
  method ParseSummary(text: string) returns (rows: seq<SummaryRecord>)
    ensures rows == Extract(SplitLines(text), SummarySkip, SummaryRow)
  {
    rows := ParseTable(text, SummarySkip, SummaryRow);
  }

  // ---------------------------------------------------------------------------
  // Logins from multiple geographies
  // ---------------------------------------------------------------------------

  /** The count stays the digit text it was in the log. */
  datatype GeoRecord = GeoRecord(username: string, count: string, geographies: string)

  /** parse_multiple_geographies_table's skip: any line whose lower-case form
      starts "user " -- which includes the data rows written "user <name> ...". */
  predicate GeoSkip(line: string) {
    StartsWith(Lower(line), "user ")
  }

  /** ^user\s+(\S+)\s+(\d+)\s+(.*) on a stripped line. */
  function GeoRow(line: string): Option<GeoRecord> {
    var m := TakeFields(line, 3);
    if m.None? || m.value.0[0] != "user" || !IsDigits(m.value.0[2]) then None
    else Some(GeoRecord(m.value.0[1], m.value.0[2], m.value.1))
  }

  /** A stripped line is a geographies row exactly when it has more than three
      tokens, the first "user" and the third a numeral. */
  lemma GeoRowTokens(line: string)
    requires IsStripped(line) && line != []
    ensures GeoRow(line).Some? <==>
              |Tokens(line)| > 3 && Tokens(line)[0] == "user" && IsDigits(Tokens(line)[2])
    ensures GeoRow(line).Some? ==>
              var r, t := GeoRow(line).value, Tokens(line);
              && r.username == t[1] && r.count == t[2]
              && r.geographies != [] && IsStripped(r.geographies) && Tokens(r.geographies) == t[3..]
  {
    TakeFieldsTokens(line, 3);
  }

  /** A field taken by Field is a prefix of the text, followed by whitespace. */
  lemma FieldPrefix(s: string)
    requires Field(s).Some?
    ensures |Field(s).value.0| < |s|
    ensures s[..|Field(s).value.0|] == Field(s).value.0
    ensures IsSpace(s[|Field(s).value.0|])
  {
  }

  /** Lower-casing keeps a prefix that has no capital letters. */
  lemma LowerKeepsPrefix(s: string, p: string)
    requires StartsWith(s, p)
    requires forall i :: 0 <= i < |p| ==> !('A' <= p[i] <= 'Z')
    ensures StartsWith(Lower(s), p)
  {
  }

  /** Only a row whose "user" is followed by whitespace other than a space (a
      tab, say) survives the skip predicate and yields a record. */
  lemma GeoRowsNeedOtherSpace(line: string)
    requires GeoRow(line).Some? && !GeoSkip(line)
    ensures |line| > 4 && IsSpace(line[4]) && line[4] != ' '
  {
    FieldPrefix(line);
    var user := Field(line).value.0;
    assert user == TakeFields(line, 3).value.0[0] == "user";
    GeoSkipSeparator(line);
  }

  /** A geographies row as the log writes it: "user", the separator sep, then
      the name, the count and the geographies separated by spaces. */
  function ShowGeo(r: GeoRecord, sep: char): string {
    "user" + [sep] + Unwords([r.username, r.count, r.geographies])
  }

  /** Reading a written geographies row gives its record back, whatever
      whitespace follows "user"; but the skip predicate drops the row exactly
      when that whitespace is a space. */
  lemma GeoRoundTrip(r: GeoRecord, sep: char)
    requires IsSpace(sep)
    requires r.username != [] && NoSpace(r.username) && IsDigits(r.count)
    requires r.geographies != [] && IsStripped(r.geographies)
    ensures GeoRow(ShowGeo(r, sep)) == Some(r)
    ensures GeoSkip(ShowGeo(r, sep)) <==> sep == ' '
  {
    GeoRowOfShow(r, sep);
    var line := ShowGeo(r, sep);
    assert line[..4] == "user" && line[4] == sep;
    GeoSkipSeparator(line);
  }

  lemma GeoRowOfShow(r: GeoRecord, sep: char)
    requires IsSpace(sep)
    requires r.username != [] && NoSpace(r.username) && IsDigits(r.count)
    requires r.geographies != [] && IsStripped(r.geographies)
    ensures GeoRow(ShowGeo(r, sep)) == Some(r)
  {
    ThreeFieldsAfterWord("user", sep, r.username, r.count, r.geographies);
  }

  /** A word, a whitespace character, then two words and a stripped remainder
      separated by spaces: three \S+\s+ steps take off the three words. */
  lemma ThreeFieldsAfterWord(w: string, sep: char, a: string, b: string, rest: string)
    requires w != [] && NoSpace(w) && IsSpace(sep) && Words([a, b]) && rest != [] && IsStripped(rest)
    ensures TakeFields(w + [sep] + Unwords([a, b, rest]), 3).Some?
    ensures TakeFields(w + [sep] + Unwords([a, b, rest]), 3).value.0 == [w, a, b]
    ensures TakeFields(w + [sep] + Unwords([a, b, rest]), 3).value.1 == rest
  {
    var u := Unwords([a, b, rest]);
    assert [a, b] + [rest] == [a, b, rest];
    TakeFieldsUnwords([a, b], rest);
    UnwordsStripped([a, b, rest]);
    TakeFieldsWord(w, sep, u, 3);
  }

  /** Whether a line that starts "user" and a whitespace character is skipped
      depends on that character alone. */
  lemma GeoSkipSeparator(line: string)
    requires |line| > 4 && line[..4] == "user" && IsSpace(line[4])
    ensures GeoSkip(line) <==> line[4] == ' '
  {
    var low := Lower(line);
    if line[4] == ' ' {
      assert line[..4] + [line[4]] == "user ";
      assert StartsWith(line, line[..4] + [line[4]]);
      LowerKeepsPrefix(line, "user ");
    }
    if GeoSkip(line) {
      assert low[4] == LowerChar(line[4]) == ' ';
    }
  }

  /** parse_multiple_geographies_table. */
  method ParseGeographies(text: string) returns (rows: seq<GeoRecord>)
    ensures rows == Extract(SplitLines(text), GeoSkip, GeoRow)
  {
    rows := ParseTable(text, GeoSkip, GeoRow);
  }

  // ---------------------------------------------------------------------------
  // Content provider accesses
  // ---------------------------------------------------------------------------

  datatype ProviderRecord = ProviderRecord(provider: string, kb: Decimal, errors: nat, total: nat)

  /** parse_provider_access_table's skip: column titles and totals. */
  predicate ProviderSkip(line: string) {
    Contains(line, "Content Provider") || Contains(line, "Total KB")
  }

  /** ^(\S+)\s+(\d+\.\d+)\s+(\d+)\s+(\d+)$ on a stripped line, with the numbers
      converted. */
  function ProviderRow(line: string): Option<ProviderRecord> {
    var m := TakeFields(line, 3);
    if m.None? || ParseDecimal(m.value.0[1]).None? || !IsDigits(m.value.0[2]) || !IsDigits(m.value.1) then None
    else
      var f := m.value.0;
      Some(ProviderRecord(f[0], ParseDecimal(f[1]).value, DigitsValue(f[2]), DigitsValue(m.value.1)))
  }

  /** A stripped line is a provider row exactly when it is four tokens: a
      name, a decimal and two numerals. A row missing its total is dropped. */
  lemma ProviderRowTokens(line: string)
    requires IsStripped(line) && line != []
    ensures ProviderRow(line).Some? <==>
              && |Tokens(line)| == 4 && ParseDecimal(Tokens(line)[1]).Some?
              && IsDigits(Tokens(line)[2]) && IsDigits(Tokens(line)[3])
    ensures ProviderRow(line).Some? ==>
              var t := Tokens(line);
              ProviderRow(line).value
              == ProviderRecord(t[0], ParseDecimal(t[1]).value, DigitsValue(t[2]), DigitsValue(t[3]))
  {
    var m := TakeFields(line, 3);
    if m.Some? && IsDigits(m.value.1) {
      LastField(line, 3);
    }
    if |Tokens(line)| == 4 {
      LastToken(line, 3);
    }
  }

  /** A provider row as the log writes it. */
  function ShowProvider(r: ProviderRecord): string {
    Unwords([r.provider, ShowDecimal(r.kb), NatDigits(r.errors), NatDigits(r.total)])
  }

  /** Reading a written provider row gives its record back. */
  lemma ProviderRoundTrip(r: ProviderRecord)
    requires r.provider != [] && NoSpace(r.provider) && ValidDecimal(r.kb)
    ensures ProviderRow(ShowProvider(r)) == Some(r)
  {
    var kb, e, t := ShowDecimal(r.kb), NatDigits(r.errors), NatDigits(r.total);
    DecimalRoundTrip(r.kb);
    DecimalNoSpace(kb);
    assert [r.provider, kb, e] + [t] == [r.provider, kb, e, t];
    TakeFieldsUnwords([r.provider, kb, e], t);
    DigitsValueOfNatDigits(r.errors);
    DigitsValueOfNatDigits(r.total);
  }

  /** parse_provider_access_table. */
  method ParseProviders(text: string) returns (rows: seq<ProviderRecord>)
    ensures rows == Extract(SplitLines(text), ProviderSkip, ProviderRow)
  {
    rows := ParseTable(text, ProviderSkip, ProviderRow);
  }

  // ---------------------------------------------------------------------------
  // KB usage by user
  // ---------------------------------------------------------------------------

  datatype KbRecord = KbRecord(username: string, kb: Decimal)

  /** parse_kb_usage_by_user's skip: column titles (any case) and totals. */
  predicate KbSkip(line: string) {
    StartsWith(Lower(line), "username") || Contains(line, "Total KB")
  }

  /** ^\s*(\S+)\s+(\d+\.\d+)\s*$ on a stripped line. */
  function KbRow(line: string): Option<KbRecord> {
    var m := TakeFields(line, 1);
    if m.None? || ParseDecimal(m.value.1).None? then None
    else Some(KbRecord(m.value.0[0], ParseDecimal(m.value.1).value))
  }

  /** A stripped line is a kb row exactly when it is two tokens, the second a
      decimal. */
  lemma KbRowTokens(line: string)
    requires IsStripped(line) && line != []
    ensures KbRow(line).Some? <==> |Tokens(line)| == 2 && ParseDecimal(Tokens(line)[1]).Some?
    ensures KbRow(line).Some? ==>
              KbRow(line).value == KbRecord(Tokens(line)[0], ParseDecimal(Tokens(line)[1]).value)
  {
    var m := TakeFields(line, 1);
    if m.Some? && ParseDecimal(m.value.1).Some? {
      DecimalNoSpace(m.value.1);
      LastField(line, 1);
    }
    if |Tokens(line)| == 2 {
      LastToken(line, 1);
    }
  }

  /** A kb usage row as the log writes it. */
  function ShowKb(r: KbRecord): string {
    Unwords([r.username, ShowDecimal(r.kb)])
  }

  /** Reading a written kb usage row gives its record back. */
  lemma KbRoundTrip(r: KbRecord)
    requires r.username != [] && NoSpace(r.username) && ValidDecimal(r.kb)
    ensures KbRow(ShowKb(r)) == Some(r)
  {
    var kb := ShowDecimal(r.kb);
    DecimalRoundTrip(r.kb);
    DecimalNoSpace(kb);
    assert [r.username] + [kb] == [r.username, kb];
    TakeFieldsUnwords([r.username], kb);
  }

  /** parse_kb_usage_by_user. */
  method ParseKbUsage(text: string) returns (rows: seq<KbRecord>)
    ensures rows == Extract(SplitLines(text), KbSkip, KbRow)
  {
    rows := ParseTable(text, KbSkip, KbRow);
  }

  // ---------------------------------------------------------------------------
  // SPU summary sorted by usage
  // ---------------------------------------------------------------------------

  datatype SpuRecord = SpuRecord(dns: string, accesses: nat, unknown599: nat)

  /** The column titles parse_spu_summary_usage looks for. */
  function SpuMarkers(): seq<string> {
    ["WEB SITE DNS NAME", "NUMBER OF ACCESSES", "599/UNKNOWN ACCESSES"]
  }

  /** parse_spu_summary_usage's skip: an empty line, or one holding any column
      title, compared in lower case. */
  predicate SpuSkip(line: string) {
    line == [] || exists k :: 0 <= k < |SpuMarkers()| && Contains(Lower(line), Lower(SpuMarkers()[k]))
  }

  /** ^\s*(\S+)\s+(\d+)\s+(\d+)\s*$ on a stripped line, both counts converted. */
  function SpuRow(line: string): Option<SpuRecord> {
    var m := TakeFields(line, 2);
    if m.None? || !IsDigits(m.value.0[1]) || !IsDigits(m.value.1) then None
    else Some(SpuRecord(m.value.0[0], DigitsValue(m.value.0[1]), DigitsValue(m.value.1)))
  }

  /** A stripped line is an SPU row exactly when it is three tokens, the last
      two numerals. */
  lemma SpuRowTokens(line: string)
    requires IsStripped(line) && line != []
    ensures SpuRow(line).Some? <==>
              |Tokens(line)| == 3 && IsDigits(Tokens(line)[1]) && IsDigits(Tokens(line)[2])
    ensures SpuRow(line).Some? ==>
              var t := Tokens(line);
              SpuRow(line).value == SpuRecord(t[0], DigitsValue(t[1]), DigitsValue(t[2]))
  {
    var m := TakeFields(line, 2);
    if m.Some? && IsDigits(m.value.1) {
      LastField(line, 2);
    }
    if |Tokens(line)| == 3 {
      LastToken(line, 2);
    }
  }

  /** An SPU row as the log writes it. */
  function ShowSpu(r: SpuRecord): string {
    Unwords([r.dns, NatDigits(r.accesses), NatDigits(r.unknown599)])
  }

  /** Reading a written SPU row gives its record back. */
  lemma SpuRoundTrip(r: SpuRecord)
    requires r.dns != [] && NoSpace(r.dns)
    ensures SpuRow(ShowSpu(r)) == Some(r)
  {
    var a, b := NatDigits(r.accesses), NatDigits(r.unknown599);
    assert [r.dns, a] + [b] == [r.dns, a, b];
    TakeFieldsUnwords([r.dns, a], b);
    DigitsValueOfNatDigits(r.accesses);
    DigitsValueOfNatDigits(r.unknown599);
  }

  /** Non-increasing in the number of accesses. */
  predicate ByAccesses(s: seq<SpuRecord>) {
    forall i, j :: 0 <= i < j < |s| ==> s[i].accesses >= s[j].accesses
  }

  /** The records with the given number of accesses, in their order in s. */
  function WithAccesses(s: seq<SpuRecord>, n: nat): seq<SpuRecord> {
    if s == [] then []
    else (if s[0].accesses == n then [s[0]] else []) + WithAccesses(s[1..], n)
  }

  /** x placed into s, which is ordered by accesses, ahead of every record with
      as many accesses or fewer. */
  function InsertByAccesses(x: SpuRecord, s: seq<SpuRecord>): (r: seq<SpuRecord>)
    requires ByAccesses(s)
    ensures |r| == |s| + 1
    ensures ByAccesses(r)
    ensures forall y :: y in r ==> y == x || y in s
  {
    if s == [] || x.accesses >= s[0].accesses then [x] + s
    else
      var t := InsertByAccesses(x, s[1..]);
      assert forall y :: y in t ==> y.accesses <= s[0].accesses;
      [s[0]] + t
  }

  /** Inserting adds x and loses nothing. */
  lemma {:induction false} InsertPermutes(x: SpuRecord, s: seq<SpuRecord>)
    requires ByAccesses(s)
    ensures multiset(InsertByAccesses(x, s)) == multiset(s) + multiset{x}
  {
    if s != [] && x.accesses < s[0].accesses {
      InsertPermutes(x, s[1..]);
      assert s == [s[0]] + s[1..];
    }
  }

  /** The stable sort by accesses, descending (sort_values with
      ascending=False and kind="mergesort"). */
  function SortByAccesses(s: seq<SpuRecord>): (r: seq<SpuRecord>)
    ensures ByAccesses(r)
    ensures multiset(r) == multiset(s)
  {
    if s == [] then []
    else
      assert s == [s[0]] + s[1..];
      InsertPermutes(s[0], SortByAccesses(s[1..]));
      InsertByAccesses(s[0], SortByAccesses(s[1..]))
  }

  /** Inserting keeps the order among records with equal accesses: x goes ahead
      of those it ties with, which is where it stood in the input. */
  lemma {:induction false} InsertKeepsTies(x: SpuRecord, s: seq<SpuRecord>, n: nat)
    requires ByAccesses(s)
    ensures WithAccesses(InsertByAccesses(x, s), n) == (if x.accesses == n then [x] else []) + WithAccesses(s, n)
  {
    if s == [] || x.accesses >= s[0].accesses {
      assert ([x] + s)[1..] == s;
    } else {
      var t := InsertByAccesses(x, s[1..]);
      InsertKeepsTies(x, s[1..], n);
      assert ([s[0]] + t)[1..] == t;
    }
  }

  /** The sort is stable: for each number of accesses, the records with that
      number come out in the order they came in. */
  lemma {:induction false} SortIsStable(s: seq<SpuRecord>, n: nat)
    ensures WithAccesses(SortByAccesses(s), n) == WithAccesses(s, n)
  {
    if s != [] {
      SortIsStable(s[1..], n);
      InsertKeepsTies(s[0], SortByAccesses(s[1..]), n);
    }
  }

  /** parse_spu_summary_usage: the matched rows, re-ordered by accesses. */
  method ParseSpuSummary(text: string) returns (rows: seq<SpuRecord>)
    ensures rows == SortByAccesses(Extract(SplitLines(text), SpuSkip, SpuRow))
  {
    var matched := ParseTable(text, SpuSkip, SpuRow);
    rows := SortByAccesses(matched);
  }

  // ---------------------------------------------------------------------------
  // Worked rows
  // ---------------------------------------------------------------------------

  /** Two words written with a single space. */
  lemma UnwordsTwo(a: string, b: string)
    ensures Unwords([a, b]) == a + " " + b
  {
    assert [a, b][1..] == [b];
  }

  /** Three words written with single spaces. */
  lemma UnwordsThree(a: string, b: string, c: string)
    ensures Unwords([a, b, c]) == a + " " + b + " " + c
  {
    assert [a, b, c][1..] == [b, c];
    UnwordsTwo(b, c);
  }

  /** Four words written with single spaces. */
  lemma UnwordsFour(a: string, b: string, c: string, d: string)
    ensures Unwords([a, b, c, d]) == a + " " + b + " " + c + " " + d
  {
    assert [a, b, c, d][1..] == [b, c, d];
    UnwordsThree(b, c, d);
  }

  /** Writing two non-empty runs of words one after the other. */
  lemma {:induction false} UnwordsAppend(ts: seq<string>, us: seq<string>)
    requires ts != [] && us != []
    ensures Unwords(ts + us) == Unwords(ts) + " " + Unwords(us)
    decreases |ts|
  {
    if |ts| == 1 {
      assert (ts + us)[1..] == us;
    } else {
      assert (ts + us)[1..] == ts[1..] + us;
      UnwordsAppend(ts[1..], us);
    }
  }

  /** Eight words written with single spaces, grouped as a logins row is. */
  lemma UnwordsEight(a: string, b: string, c: string, d: string, e: string, f: string, g: string, h: string)
    ensures Unwords([a, b, c, d, e, f, g, h]) == (a + " " + b) + " " + (c + " " + d) + " " + (e + " " + f + " " + g) + " " + h
  {
    var p, q, t, u := [a, b], [c, d], [e, f, g], [h];
    assert p + q + t + u == [a, b, c, d, e, f, g, h];
    UnwordsAppend(p + q + t, u);
    UnwordsAppend(p + q, t);
    UnwordsAppend(p, q);
    UnwordsTwo(a, b);
    UnwordsTwo(c, d);
    UnwordsThree(e, f, g);
  }

  /** How the logins row of LoginExample is written. */
  lemma LoginText(r: LoginRecord)
    requires r == LoginRecord("2024-01-05", "09:15:00", "2024-01-05", "10:00:00", "bob", "s1", "10.0.0.1", "Leeds, UK")
    ensures ShowLogin(r) == "2024-01-05 09:15:00" + " " + "2024-01-05 10:00:00" + " " + "bob s1 10.0.0.1" + " " + "Leeds, UK"
  {
    UnwordsEight(r.loginDate, r.loginTime, r.logoutDate, r.logoutTime, r.username, r.session, r.ip, r.geography);
    assert r.loginDate + " " + r.loginTime == "2024-01-05 09:15:00";
    assert r.logoutDate + " " + r.logoutTime == "2024-01-05 10:00:00";
    assert r.username + " " + r.session + " " + r.ip == "bob s1 10.0.0.1";
  }

  /** Five words make a run of words. */
  lemma WordsFive(a: string, b: string, c: string, d: string, e: string)
    requires a != [] && b != [] && c != [] && d != [] && e != []
    requires NoSpace(a) && NoSpace(b) && NoSpace(c) && NoSpace(d) && NoSpace(e)
    ensures Words([a, b, c, d, e])
  {
  }

  /** The logins record of LoginExample is one a row can carry. */
  lemma LoginValid()
    ensures ValidLogin(LoginRecord("2024-01-05", "09:15:00", "2024-01-05", "10:00:00", "bob", "s1", "10.0.0.1", "Leeds, UK"))
  {
    WordsFive("2024-01-05", "10:00:00", "bob", "s1", "10.0.0.1");
  }

  /** A logins row: the geography is the rest of the line, spaces and all. */
  lemma LoginExample(line: string)
    requires line == "2024-01-05 09:15:00" + " " + "2024-01-05 10:00:00" + " " + "bob s1 10.0.0.1" + " " + "Leeds, UK"
    ensures LoginRow(line) == Some(LoginRecord("2024-01-05", "09:15:00", "2024-01-05", "10:00:00", "bob", "s1", "10.0.0.1", "Leeds, UK"))
  {
    var r := LoginRecord("2024-01-05", "09:15:00", "2024-01-05", "10:00:00", "bob", "s1", "10.0.0.1", "Leeds, UK");
    LoginText(r);
    LoginValid();
    assert ShowLogin(r) == line;
    LoginRoundTrip(r);
  }

  /** A login summary row: name, successful logins, failures. */
  lemma SummaryExample(line: string)
    requires line == "bob 12 3"
    ensures SummaryRow(line) == Some(SummaryRecord("bob", 12, 3))
  {
    var r := SummaryRecord("bob", 12, 3);
    assert NatDigits(12) == "12";
    assert NatDigits(3) == "3";
    UnwordsThree("bob", "12", "3");
    assert ShowSummary(r) == line;
    SummaryRoundTrip(r);
  }

  /** A geographies row separated from "user" by a tab is read; the same row
      with a plain space is skipped. */
  lemma GeoExample(tabbed: string, spaced: string)
    requires tabbed == "user\tbob 2 UK, FR" && spaced == "user bob 2 UK, FR"
    ensures GeoRow(tabbed) == Some(GeoRecord("bob", "2", "UK, FR")) && !GeoSkip(tabbed)
    ensures GeoRow(spaced) == Some(GeoRecord("bob", "2", "UK, FR")) && GeoSkip(spaced)
  {
    var r := GeoRecord("bob", "2", "UK, FR");
    UnwordsThree("bob", "2", "UK, FR");
    assert ShowGeo(r, '\t') == tabbed;
    assert ShowGeo(r, ' ') == spaced;
    GeoRoundTrip(r, '\t');
    GeoRoundTrip(r, ' ');
  }

  /** How the provider row of ProviderExample is written. */
  lemma ProviderText(r: ProviderRecord)
    requires r == ProviderRecord("jstor", Decimal("1024", "50"), 0, 17)
    ensures ShowProvider(r) == "jstor 1024.50 0 17"
  {
    UnwordsFour(r.provider, ShowDecimal(r.kb), NatDigits(r.errors), NatDigits(r.total));
    assert ShowDecimal(r.kb) == "1024.50";
    assert NatDigits(r.errors) == "0";
    assert NatDigits(r.total) == "17";
  }

  /** A content provider row: provider, kb, errors, total. */
  lemma ProviderExample(line: string)
    requires line == "jstor 1024.50 0 17"
    ensures ProviderRow(line) == Some(ProviderRecord("jstor", Decimal("1024", "50"), 0, 17))
  {
    var r := ProviderRecord("jstor", Decimal("1024", "50"), 0, 17);
    ProviderText(r);
    ProviderRoundTrip(r);
  }

  /** A kb usage row: name and kb. */
  lemma KbExample(line: string)
    requires line == "bob 12.5"
    ensures KbRow(line) == Some(KbRecord("bob", Decimal("12", "5")))
  {
    var r := KbRecord("bob", Decimal("12", "5"));
    assert ShowDecimal(r.kb) == "12.5";
    UnwordsTwo("bob", "12.5");
    assert ShowKb(r) == line;
    KbRoundTrip(r);
  }

  /** An SPU row: host, accesses, 599/unknown accesses. */
  lemma SpuExample(line: string)
    requires line == "www.jstor.org 42 1"
    ensures SpuRow(line) == Some(SpuRecord("www.jstor.org", 42, 1))
  {
    var r := SpuRecord("www.jstor.org", 42, 1);
    assert NatDigits(42) == "42";
    assert NatDigits(1) == "1";
    UnwordsThree("www.jstor.org", "42", "1");
    assert ShowSpu(r) == line;
    SpuRoundTrip(r);
  }
}
