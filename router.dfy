/** The dispatch loop of main: each routing rule picks the first section whose
    lower-cased header holds its keyword, parses it with the rule's parser and
    keeps the table under the rule's name when it has rows. */
module Router {
  import opened Text
  import opened OrderedDict
  import opened Sections
  import opened Tables

  /** The parser a rule applies. */
  datatype Shape = LoginsShape | SummaryShape | GeoShape | ProviderShape | KbShape | SpuShape

  /** What a parser returns: the rows of one table, as records of its shape. */
  datatype Table =
    | Logins(logins: seq<LoginRecord>)
    | Summary(summary: seq<SummaryRecord>)
    | Geographies(geographies: seq<GeoRecord>)
    | Providers(providers: seq<ProviderRecord>)
    | KbUsage(kb: seq<KbRecord>)
    | Spu(spu: seq<SpuRecord>)

  /** The number of rows of a table (a DataFrame is empty when it has none). */
  function Rows(t: Table): nat {
    match t
    case Logins(r) => |r|
    case Summary(r) => |r|
    case Geographies(r) => |r|
    case Providers(r) => |r|
    case KbUsage(r) => |r|
    case Spu(r) => |r|
  }

  /** The table the parser of the given shape makes of a section's text. */
  function TableOf(shape: Shape, content: string): Table {
    var lines := SplitLines(content);
    match shape
    case LoginsShape => Logins(Extract(lines, LoginsSkip, LoginRow))
    case SummaryShape => Summary(Extract(lines, SummarySkip, SummaryRow))
    case GeoShape => Geographies(Extract(lines, GeoSkip, GeoRow))
    case ProviderShape => Providers(Extract(lines, ProviderSkip, ProviderRow))
    case KbShape => KbUsage(Extract(lines, KbSkip, KbRow))
    case SpuShape => Spu(SortByAccesses(Extract(lines, SpuSkip, SpuRow)))
  }

  /** Calls the parser of the given shape. */
  method ParseSection(shape: Shape, content: string) returns (t: Table)
    ensures t == TableOf(shape, content)
  {
    match shape {
      case LoginsShape =>
        var rows := ParseLogins(content);
        t := Logins(rows);
      case SummaryShape =>
        var rows := ParseSummary(content);
        t := Summary(rows);
      case GeoShape =>
        var rows := ParseGeographies(content);
        t := Geographies(rows);
      case ProviderShape =>
        var rows := ParseProviders(content);
        t := Providers(rows);
      case KbShape =>
        var rows := ParseKbUsage(content);
        t := KbUsage(rows);
      case SpuShape =>
        var rows := ParseSpuSummary(content);
        t := Spu(rows);
    }
  }

  /** A routing rule: the keyword looked for, the dataset name (None: the name
      is "KBUsage_" followed by the section header) and the parser. */
  datatype Rule = Rule(keyword: string, name: Option<string>, shape: Shape)

  /** parser_mapping, in order. */
  function Rules(): (rules: seq<Rule>)
    ensures |rules| == 7
  {
    [ Rule("report of all logins sorted by username", Some("Logins"), LoginsShape),
      Rule("login summary sorted by username", Some("LoginSummary"), SummaryShape),
      Rule("all successful logins coming from multiple geographies", Some("MultipleGeographies"), GeoShape),
      Rule("report of all content provider accesses sorted by kb transferred", Some("ProviderAccess_byKB"), ProviderShape),
      Rule("report of all content provider accesses", Some("ProviderAccess"), ProviderShape),
      Rule("report total kb usage by user", None, KbShape),
      Rule("spu summary sorted by usage", Some("SPUSummary_byUsage"), SpuShape) ]
  }

  /** The prefix of the names of kb usage datasets. */
  function KbUsagePrefix(): string { "KBUsage_" }

  /** The name a rule stores a table under when it came from the given header. */
  function KeyOf(rule: Rule, header: string): string {
    if rule.name.Some? then rule.name.value else KbUsagePrefix() + header
  }

  /** Two rules can never store under the same name: fixed names differ, and a
      fixed name never looks like a kb usage name; at most one of the two names
      is taken from the header. */
  predicate Apart(a: Option<string>, b: Option<string>) {
    match (a, b)
    case (Some(x), Some(y)) => x != y
    case (Some(x), None) => !StartsWith(x, KbUsagePrefix())
    case (None, Some(y)) => !StartsWith(y, KbUsagePrefix())
    case (None, None) => false
  }

  predicate NamesApart(rules: seq<Rule>) {
    forall i, j :: 0 <= i < j < |rules| ==> Apart(rules[i].name, rules[j].name)
  }

  /** Names of rules that are apart never coincide, whatever the headers. */
  lemma KeysApart(a: Rule, b: Rule, ha: string, hb: string)
    requires Apart(a.name, b.name)
    ensures KeyOf(a, ha) != KeyOf(b, hb)
  {
    var p := KbUsagePrefix();
    if a.name.None? {
      assert KeyOf(a, ha)[..|p|] == p;
    } else if b.name.None? {
      assert KeyOf(b, hb)[..|p|] == p;
    }
  }

  /** Whether the lower-cased header of a section holds a keyword. */
  predicate HeaderHas(section: (string, string), keyword: string) {
    Contains(Lower(section.0), keyword)
  }

  /** The first section, in dict order, whose lower-cased header holds the
      keyword. */
  function FirstMatch(sections: seq<(string, string)>, keyword: string): (r: Option<nat>)
    ensures r.Some? ==> r.value < |sections| && HeaderHas(sections[r.value], keyword)
    ensures forall i :: 0 <= i < |sections| && (r.None? || i < r.value) ==> !HeaderHas(sections[i], keyword)
    decreases |sections|
  {
    if sections == [] then None
    else if HeaderHas(sections[0], keyword) then Some(0)
    else
      var r := FirstMatch(sections[1..], keyword);
      assert forall i :: 1 <= i < |sections| ==> sections[i] == sections[1..][i - 1];
      if r.None? then None else Some(r.value + 1)
  }

  /** The dataset a rule stores, if any: the table parsed from the first
      section that matches its keyword, when that table has rows. */
  function RuleOutcome(rule: Rule, sections: seq<(string, string)>): Option<(string, Table)> {
    var m := FirstMatch(sections, rule.keyword);
    if m.None? then None
    else
      var t := TableOf(rule.shape, sections[m.value].1);
      if Rows(t) == 0 then None else Some((KeyOf(rule, sections[m.value].0), t))
  }

  /** The outcome of each rule, in order. */
  function RuleOutcomes(rules: seq<Rule>, sections: seq<(string, string)>): (o: seq<Option<(string, Table)>>)
    ensures |o| == |rules|
    ensures forall j :: 0 <= j < |rules| ==> o[j] == RuleOutcome(rules[j], sections)
  {
    seq(|rules|, j requires 0 <= j < |rules| => RuleOutcome(rules[j], sections))
  }

  /** A dict after assigning the entries among the outcomes, in order. */
  function AssignAll<K(==), V>(o: seq<Option<(K, V)>>): seq<(K, V)>
    decreases |o|
  {
    if o == [] then []
    else
      var prev := AssignAll(o[..|o| - 1]);
      var last := o[|o| - 1];
      if last.None? then prev else Assign(prev, last.value.0, last.value.1)
  }

  /** df_dict after the loop over the rules. */
  function Collected(rules: seq<Rule>, sections: seq<(string, string)>): seq<(string, Table)> {
    AssignAll(RuleOutcomes(rules, sections))
  }

  /** The outcomes hold no key twice. */
  predicate DistinctOutcomeKeys<K(==), V>(o: seq<Option<(K, V)>>) {
    forall i, j :: 0 <= i < j < |o| && o[i].Some? && o[j].Some? ==> o[i].value.0 != o[j].value.0
  }

  /** When no two outcomes share a key, no assignment overwrites another: the
      dict is the entries, in order. */
  lemma {:induction false} AssignAllDistinct<K, V>(o: seq<Option<(K, V)>>)
    requires DistinctOutcomeKeys(o)
    ensures AssignAll(o) == Records(o)
    decreases |o|
  {
    if o != [] {
      var n := |o| - 1;
      var init := o[..n];
      assert DistinctOutcomeKeys(init);
      AssignAllDistinct(init);
      if o[n].Some? {
        var prev := Records(init);
        RecordsAtHits(init);
        HitsAreRecords(init);
        assert forall k :: 0 <= k < |prev| ==> prev[k].0 != o[n].value.0;
        assert o[n].value.0 !in Keys(prev);
        AssignNewKey(prev, o[n].value.0, o[n].value.1);
      }
    }
  }

  /** Rules whose names are apart store no dataset twice. */
  lemma OutcomeKeysDistinct(rules: seq<Rule>, sections: seq<(string, string)>)
    requires NamesApart(rules)
    ensures DistinctOutcomeKeys(RuleOutcomes(rules, sections))
  {
    var o := RuleOutcomes(rules, sections);
    forall i, j | 0 <= i < j < |o| && o[i].Some? && o[j].Some?
      ensures o[i].value.0 != o[j].value.0
    {
      var mi := FirstMatch(sections, rules[i].keyword).value;
      var mj := FirstMatch(sections, rules[j].keyword).value;
      KeysApart(rules[i], rules[j], sections[mi].0, sections[mj].0);
    }
  }

  /** No rule's dataset overwrites another's: df_dict holds every rule's
      dataset, in the order of the rules, the k-th coming from the k-th rule
      that stored one. */
  lemma RoutedInRuleOrder(rules: seq<Rule>, sections: seq<(string, string)>)
    requires NamesApart(rules)
    ensures Collected(rules, sections) == Records(RuleOutcomes(rules, sections))
    ensures |Collected(rules, sections)| == |Hits(RuleOutcomes(rules, sections))|
    ensures forall k, l :: 0 <= k < l < |Hits(RuleOutcomes(rules, sections))| ==>
              Hits(RuleOutcomes(rules, sections))[k] < Hits(RuleOutcomes(rules, sections))[l]
    ensures forall k :: 0 <= k < |Hits(RuleOutcomes(rules, sections))| ==>
              var j := Hits(RuleOutcomes(rules, sections))[k];
              j < |rules| && RuleOutcome(rules[j], sections) == Some(Collected(rules, sections)[k])
  {
    var o := RuleOutcomes(rules, sections);
    OutcomeKeysDistinct(rules, sections);
    AssignAllDistinct(o);
    RecordsAtHits(o);
    HitsAreRecords(o);
  }

  /** The loop over parser_mapping in main: each rule in order looks at the
      sections in dict order and stops at the first whose lower-cased header
      holds its keyword, even when the table parsed from it is empty; a table
      with rows is stored under the rule's name. */
  method Route(rules: seq<Rule>, sections: seq<(string, string)>) returns (datasets: seq<(string, Table)>)
    ensures datasets == Collected(rules, sections)
  {
    ghost var o := RuleOutcomes(rules, sections);
    datasets := [];
    for j := 0 to |rules|
      invariant datasets == AssignAll(o[..j])
    {
      var rule := rules[j];
      assert o[..j + 1][..j] == o[..j];
      var i := 0;
      ghost var found := false;
      while i < |sections|
        invariant i <= |sections| && !found
        invariant forall k :: 0 <= k < i ==> !HeaderHas(sections[k], rule.keyword)
        invariant datasets == AssignAll(o[..j])
      {
        var header, content := sections[i].0, sections[i].1;
        if Contains(Lower(header), rule.keyword) {
          FirstMatchAt(sections, rule.keyword, i);
          var t := ParseSection(rule.shape, content);
          if Rows(t) > 0 {
            datasets := Assign(datasets, KeyOf(rule, header), t);
          }
          found := true;
          break;
        }
        i := i + 1;
      }
      if !found {
        NoMatchAfterAll(sections, rule.keyword, i);
      }
    }
    assert o[..|rules|] == o;
  }

  /** The first section holding the keyword is the one FirstMatch names. */
  lemma FirstMatchAt(sections: seq<(string, string)>, keyword: string, i: nat)
    requires i < |sections| && HeaderHas(sections[i], keyword)
    requires forall k :: 0 <= k < i ==> !HeaderHas(sections[k], keyword)
    ensures FirstMatch(sections, keyword) == Some(i)
  {
  }

  /** When no section holds the keyword, FirstMatch finds none. */
  lemma NoMatchAfterAll(sections: seq<(string, string)>, keyword: string, i: nat)
    requires i == |sections|
    requires forall k :: 0 <= k < i ==> !HeaderHas(sections[k], keyword)
    ensures FirstMatch(sections, keyword).None?
  {
  }

  /** No fixed name looks like a kb usage name. */
  predicate FixedNamesPlain(rules: seq<Rule>) {
    forall j :: 0 <= j < |rules| && rules[j].name.Some? ==> !StartsWith(rules[j].name.value, KbUsagePrefix())
  }

  /** Among the datasets of rules whose names are apart, at most one is named
      after a header: only one rule takes its name from the header, and it
      stores at most one table. */
  lemma AtMostOneKbUsage(rules: seq<Rule>, sections: seq<(string, string)>)
    requires NamesApart(rules) && FixedNamesPlain(rules)
    ensures forall k, l :: 0 <= k < l < |Collected(rules, sections)| ==>
              !(StartsWith(Collected(rules, sections)[k].0, KbUsagePrefix())
                && StartsWith(Collected(rules, sections)[l].0, KbUsagePrefix()))
  {
    RoutedInRuleOrder(rules, sections);
    var c := Collected(rules, sections);
    var hits := Hits(RuleOutcomes(rules, sections));
    forall k, l | 0 <= k < l < |c|
      ensures !(StartsWith(c[k].0, KbUsagePrefix()) && StartsWith(c[l].0, KbUsagePrefix()))
    {
      var jk, jl := hits[k], hits[l];
      assert jk < jl;
      assert !(rules[jk].name.None? && rules[jl].name.None?) by {
        assert !Apart(None, None);
      }
    }
  }

  /** A section whose lower-cased header holds no keyword is never parsed: when
      no header holds any keyword, there are no datasets. */
  lemma NoKeywordNoDatasets(rules: seq<Rule>, sections: seq<(string, string)>)
    requires forall j, i :: 0 <= j < |rules| && 0 <= i < |sections| ==> !HeaderHas(sections[i], rules[j].keyword)
    ensures Collected(rules, sections) == []
  {
    var o := RuleOutcomes(rules, sections);
    assert forall j :: 0 <= j < |o| ==> o[j].None?;
    NoOutcomesNothingAssigned(o);
  }

  lemma {:induction false} NoOutcomesNothingAssigned<K, V>(o: seq<Option<(K, V)>>)
    requires forall j :: 0 <= j < |o| ==> o[j].None?
    ensures AssignAll(o) == []
    decreases |o|
  {
    if o != [] {
      NoOutcomesNothingAssigned(o[..|o| - 1]);
    }
  }

  /** A keyword occurs in a text only if it is no longer than the text. */
  lemma ContainsFits(s: string, part: string)
    requires Contains(s, part)
    ensures |part| <= |s|
  {
  }

  /** A text that holds a word holds every prefix of it. */
  lemma ContainsPrefix(s: string, part: string, prefix: string)
    requires Contains(s, part) && StartsWith(part, prefix)
    ensures Contains(s, prefix)
  {
    var i :| 0 <= i <= |s| - |part| && OccursAt(s, part, i);
    assert s[i..i + |prefix|] == part[..|prefix|];
    assert OccursAt(s, prefix, i);
  }

  // ---------------------------------------------------------------------------
  // parser_mapping as written
  // ---------------------------------------------------------------------------

  /** The names parser_mapping stores under, rule by rule. */
  lemma RuleNames()
    ensures Rules()[0].name == Some("Logins") && Rules()[1].name == Some("LoginSummary")
    ensures Rules()[2].name == Some("MultipleGeographies") && Rules()[3].name == Some("ProviderAccess_byKB")
    ensures Rules()[4].name == Some("ProviderAccess") && Rules()[5].name == None
    ensures Rules()[6].name == Some("SPUSummary_byUsage")
  {
  }

  /** Names with different initials or lengths differ. */
  lemma NamesDiffer(x: string, y: string)
    requires x != [] && y != [] && (x[0] != y[0] || |x| != |y|)
    ensures x != y
  {
  }

  /** A name that does not start with a capital K is no kb usage name. */
  lemma NotKbUsageName(x: string)
    requires x != [] && x[0] != 'K'
    ensures !StartsWith(x, KbUsagePrefix())
  {
    assert KbUsagePrefix()[0] == 'K';
  }

  /** The names of parser_mapping never clash, and the one rule named after
      its header is the kb usage rule. */
  lemma RulesNamesApart()
    ensures NamesApart(Rules()) && FixedNamesPlain(Rules())
    ensures forall j :: 0 <= j < |Rules()| ==> (Rules()[j].name.None? <==> j == 5)
  {
    RuleNames();
    var rules := Rules();
    forall j | 0 <= j < 7 && rules[j].name.Some?
      ensures !StartsWith(rules[j].name.value, KbUsagePrefix())
    {
      NotKbUsageName(rules[j].name.value);
    }
    forall i, j | 0 <= i < j < 7
      ensures Apart(rules[i].name, rules[j].name)
    {
      if rules[i].name.Some? && rules[j].name.Some? {
        NamesDiffer(rules[i].name.value, rules[j].name.value);
      }
    }
  }

  /** The plain provider keyword is a prefix of the kb-sorted one, so a header
      that holds the kb-sorted keyword satisfies the plain provider rule too. */
  lemma ProviderKeywordsNest(section: (string, string))
    requires HeaderHas(section, Rules()[3].keyword)
    ensures HeaderHas(section, Rules()[4].keyword)
  {
    ContainsPrefix(Lower(section.0), Rules()[3].keyword, Rules()[4].keyword);
  }

  /** Whenever the kb-sorted provider rule finds a section, the plain provider
      rule finds one too, no later in dict order; with no other provider
      section before it, the very same section is parsed under both names. */
  lemma ProviderRulesOverlap(sections: seq<(string, string)>)
    requires FirstMatch(sections, Rules()[3].keyword).Some?
    ensures FirstMatch(sections, Rules()[4].keyword).Some?
    ensures FirstMatch(sections, Rules()[4].keyword).value <= FirstMatch(sections, Rules()[3].keyword).value
  {
    ProviderKeywordsNest(sections[FirstMatch(sections, Rules()[3].keyword).value]);
  }

  /** Every keyword of parser_mapping is longer than the preamble key. */
  lemma KeywordsOutgrowPreambleKey()
    ensures forall j :: 0 <= j < |Rules()| ==> |Rules()[j].keyword| > |PreambleKey()|
  {
  }

  /** The whole core: split the text into sections and route them. */
  method ParseAuditLog(text: string) returns (sections: seq<(string, string)>, datasets: seq<(string, Table)>)
    ensures SectionsOf(TextSplit(text), |TextSplit(text).pairs|, sections)
    ensures datasets == Collected(Rules(), sections)
    ensures NoHeaderLines(text) ==> datasets == []
  {
    sections := SplitIntoSections(text);
    datasets := Route(Rules(), sections);
    if NoHeaderLines(text) {
      PreambleOnlyKeys(text, sections);
      PreambleOnlyNoDatasets(sections);
    }
  }

  /** Without header lines every section is the preamble. */
  lemma PreambleOnlyKeys(text: string, sections: seq<(string, string)>)
    requires sections == (if IsBlank(text) then [] else [(PreambleKey(), Strip(text))])
    ensures forall i :: 0 <= i < |sections| ==> sections[i].0 == PreambleKey()
  {
  }

  /** The preamble alone is routed nowhere. */
  lemma PreambleOnlyNoDatasets(sections: seq<(string, string)>)
    requires forall i :: 0 <= i < |sections| ==> sections[i].0 == PreambleKey()
    ensures Collected(Rules(), sections) == []
  {
    KeywordsOutgrowPreambleKey();
    forall j, i | 0 <= j < |Rules()| && 0 <= i < |sections|
      ensures !HeaderHas(sections[i], Rules()[j].keyword)
    {
      if HeaderHas(sections[i], Rules()[j].keyword) {
        ContainsFits(Lower(sections[i].0), Rules()[j].keyword);
      }
    }
    NoKeywordNoDatasets(Rules(), sections);
  }
}
