/** The consumer's record, `WebTransaction`: its fields as the JSON decoder
    fills them, the observation date derived from the epoch timestamp, the two
    renderings used by the storage back ends, and the three validation rules. */
module WebTransactions {
  import opened Wrappers
  import opened Text
  import opened CivilTime

  newtype Int32 = x: int | -0x8000_0000 <= x < 0x8000_0000
  newtype Int64 = x: int | -0x8000_0000_0000_0000 <= x < 0x8000_0000_0000_0000

  /** A decoded record. The setters of the C# class are only used by the JSON
      decoder, so the record is a value here; a string property that the JSON
      left null is `None`. */
  datatype WebTransaction = WebTransaction(
    utcDateUnixMs: Int64,
    customerName: Option<string>,
    url: Option<string>,
    webMethod: Option<string>,
    responseTimeMs: Int32)

  const ValidMethods: seq<string> :=
    ["get", "post", "put", "delete", "head", "options", "trace", "connect"]
  const MinResponseTimeMs: int := 0
  const MaxResponseTimeMs: int := 30000

  /** What `Dns.GetHostAddresses` does for a host: returns some number of
      addresses, or throws. */
  datatype Resolution = Addresses(count: nat) | ResolverError

  /** The foreign URL services the URL rule relies on. `tryCreateHost(u)` is
      `Uri.TryCreate(u, UriKind.RelativeOrAbsolute, out uri)` followed by
      `uri.DnsSafeHost`: the host when both succeed, `None` otherwise.
      `resolve` is the name resolver. */
  datatype UrlServices = UrlServices(tryCreateHost: string -> Option<string>,
                                     resolve: string -> Resolution)

  // ------------------------------------------------------ derived values

  /** `ObservationDateUtc`: the Unix epoch plus `UtcDateUnixMs` milliseconds;
      `None` where `AddMilliseconds` throws because the result is not a
      representable date. */
  function ObservationDateUtc(wt: WebTransaction): (r: Option<DateTime>)
    ensures r.Some? <==> 0 <= UnixEpochMs + wt.utcDateUnixMs as int < EndOfTimeMs
    ensures r.Some? ==>
      Valid(r.value) && TotalMs(r.value) == TotalMs(UnixEpoch) + wt.utcDateUnixMs as int
  {
    FromUnixMs(wt.utcDateUnixMs as int)
  }

  predicate HasObservationDate(wt: WebTransaction) {
    0 <= UnixEpochMs + wt.utcDateUnixMs as int < EndOfTimeMs
  }

  /** `FormattedObservationDateMinutes`: the observation date as `yyyy-MM-dd-HH-mm`. */
  function FormattedObservationDateMinutes(wt: WebTransaction): (r: Option<string>)
    ensures r.Some? <==> HasObservationDate(wt)
    ensures r.Some? ==> |r.value| == 16
  {
    match ObservationDateUtc(wt)
    case Some(d) => Some(MinuteStamp(d))
    case None => None
  }

  /** The text a null string contributes when appended or concatenated. */
  function OrEmpty(s: Option<string>): string {
    s.GetOr("")
  }

  /** The six rendered fields, in order: customer, URL, method, response time,
      raw timestamp and the observation date in the culture's default format. */
  function TabFields(wt: WebTransaction, date: DateTime, showDate: DateTime -> string): (f: seq<string>)
    ensures |f| == 6
  {
    [OrEmpty(wt.customerName), OrEmpty(wt.url), OrEmpty(wt.webMethod),
     IntToString(wt.responseTimeMs as int), IntToString(wt.utcDateUnixMs as int), showDate(date)]
  }

  /** `ToTabDelimitedString`; `None` where reading the observation date throws.
      `showDate` is `DateTime.ToString()` under the current culture. */
  function ToTabDelimitedString(wt: WebTransaction, showDate: DateTime -> string): (r: Option<string>)
    ensures r.Some? <==> HasObservationDate(wt)
  {
    match ObservationDateUtc(wt)
    case None => None
    case Some(d) =>
      Some(OrEmpty(wt.customerName) + "\t" + OrEmpty(wt.url) + "\t" + OrEmpty(wt.webMethod) + "\t"
           + IntToString(wt.responseTimeMs as int) + "\t" + IntToString(wt.utcDateUnixMs as int)
           + "\t" + showDate(d))
  }

  /** The rendered line is the six fields with exactly one tab between
      consecutive ones and none before the first or after the last; when no
      field holds a tab, splitting the line on tabs gives the six fields back. */
  lemma TabDelimitedShape(wt: WebTransaction, showDate: DateTime -> string)
    requires HasObservationDate(wt)
    ensures var d := ObservationDateUtc(wt).value;
      var fields := TabFields(wt, d, showDate);
      ToTabDelimitedString(wt, showDate) == Some(Join(fields, "\t"))
      && ((forall i :: 0 <= i < 6 ==> '\t' !in fields[i]) ==> Split(Join(fields, "\t"), '\t') == fields)
  {
    var d := ObservationDateUtc(wt).value;
    var f := TabFields(wt, d, showDate);
    Join6(f[0], f[1], f[2], f[3], f[4], f[5], "\t");
    if forall i :: 0 <= i < 6 ==> '\t' !in f[i] {
      SplitJoin(f, '\t');
    }
  }

  /** Every record's observation date can be read: no rendering of them throws. */
  predicate AllDated(records: seq<WebTransaction>) {
    forall i :: 0 <= i < |records| ==> HasObservationDate(records[i])
  }

  /** `f` applied to each element, in order. */
  function MapSeq<A, B>(xs: seq<A>, f: A --> B): (ys: seq<B>)
    requires forall i :: 0 <= i < |xs| ==> f.requires(xs[i])
    ensures |ys| == |xs|
  {
    seq(|xs|, i requires 0 <= i < |xs| => f(xs[i]))
  }

  lemma MapSeqAppend<A, B>(a: seq<A>, b: seq<A>, f: A --> B)
    requires forall i :: 0 <= i < |a| ==> f.requires(a[i])
    requires forall i :: 0 <= i < |b| ==> f.requires(b[i])
    ensures forall i :: 0 <= i < |a + b| ==> f.requires((a + b)[i])
    ensures MapSeq(a + b, f) == MapSeq(a, f) + MapSeq(b, f)
  {
    assert forall i :: 0 <= i < |a| ==> (a + b)[i] == a[i];
    assert forall i :: 0 <= i < |b| ==> (a + b)[|a| + i] == b[i];
  }

  /** One record's tab-delimited line. */
  function LineOf(showDate: DateTime -> string): WebTransaction --> string {
    wt requires HasObservationDate(wt) => ToTabDelimitedString(wt, showDate).value
  }

  /** The tab-delimited line of each record, in input order. */
  function Lines(records: seq<WebTransaction>, showDate: DateTime -> string): (lines: seq<string>)
    requires AllDated(records)
    ensures |lines| == |records|
  {
    MapSeq(records, LineOf(showDate))
  }

  /** The lines of the first i + 1 records extend those of the first i by record i's line. */
  lemma LinesStep(records: seq<WebTransaction>, showDate: DateTime -> string, i: int)
    requires AllDated(records) && 0 <= i < |records|
    ensures AllDated(records[..i]) && AllDated(records[..i + 1])
    ensures Lines(records[..i + 1], showDate)
      == Lines(records[..i], showDate) + [ToTabDelimitedString(records[i], showDate).value]
  {
    assert records[..i + 1] == records[..i] + [records[i]];
    AllDatedAppend(records[..i], [records[i]]);
    MapSeqAppend(records[..i], [records[i]], LineOf(showDate));
  }

  /** A concatenation is dated exactly when both parts are. */
  lemma AllDatedAppend(a: seq<WebTransaction>, b: seq<WebTransaction>)
    ensures AllDated(a + b) <==> AllDated(a) && AllDated(b)
  {
    if AllDated(a + b) {
      assert forall j :: 0 <= j < |a| ==> (a + b)[j] == a[j];
      assert forall j :: 0 <= j < |b| ==> (a + b)[|a| + j] == b[j];
    }
  }

  /** Rendering is record by record: the lines of a concatenation are the
      lines of its parts. */
  lemma LinesAppend(a: seq<WebTransaction>, b: seq<WebTransaction>, showDate: DateTime -> string)
    requires AllDated(a) && AllDated(b)
    ensures AllDated(a + b)
    ensures Lines(a + b, showDate) == Lines(a, showDate) + Lines(b, showDate)
  {
    AllDatedAppend(a, b);
    MapSeqAppend(a, b, LineOf(showDate));
  }

  // ---------------------------------------------------------- the rules

  /** `IsWebMethodValid`: the lower-cased method is one of the eight verbs. */
  predicate IsWebMethodValid(verb: string) {
    ToLower(verb) in ValidMethods
  }

  /** `IsResponseTimeValid`: neither below the minimum nor above the maximum. */
  predicate IsResponseTimeValid(responseTimeMs: int) {
    !(responseTimeMs < MinResponseTimeMs || responseTimeMs > MaxResponseTimeMs)
  }

  /** The URL handed to the parser: "http://" is put in front of a URL that
      has no scheme delimiter "://". */
  function WithScheme(url: string): (r: string)
    ensures Contains(r, "://")
    ensures Contains(url, "://") ==> r == url
  {
    if Contains(url, "://") then url
    else
      var r := "http" + "://" + url;
      ContainsAt(r, "://", 4);
      r
  }

  /** `IsValidUrl`: the URL, given a scheme when it lacks one, parses and its
      host resolves to at least one address; a resolver error counts as invalid. */
  predicate IsValidUrl(url: string, net: UrlServices) {
    match net.tryCreateHost(WithScheme(url))
    case None => false
    case Some(host) =>
      match net.resolve(host)
      case ResolverError => false
      case Addresses(n) => n > 0
  }

  /** One rule of `Validate`: whether it holds and the message it adds when not. */
  datatype Rule = Rule(holds: bool, message: string)

  /** The three rules in the order `Validate` checks them. */
  function Rules(verb: string, responseTimeMs: int, url: string, net: UrlServices): (rules: seq<Rule>)
    ensures |rules| == 3
  {
    [Rule(IsWebMethodValid(verb), "Invalid web method: " + verb),
     Rule(IsResponseTimeValid(responseTimeMs),
          "Response time outside acceptable limits: " + IntToString(responseTimeMs)),
     Rule(IsValidUrl(url, net), "Invalid URL: " + url)]
  }

  /** The messages of the rules that do not hold, in rule order. */
  function BrokenMessages(rules: seq<Rule>): seq<string>
  {
    if rules == [] then []
    else (if rules[0].holds then [] else [rules[0].message]) + BrokenMessages(rules[1..])
  }

  function MessageIfBroken(rule: Rule): seq<string> {
    if rule.holds then [] else [rule.message]
  }

  lemma BrokenMessagesOfThree(a: Rule, b: Rule, c: Rule)
    ensures BrokenMessages([a, b, c]) == MessageIfBroken(a) + MessageIfBroken(b) + MessageIfBroken(c)
  {
    assert [c][1..] == [];
    assert BrokenMessages([c]) == MessageIfBroken(c);
    assert [b, c][1..] == [c];
    assert BrokenMessages([b, c]) == MessageIfBroken(b) + MessageIfBroken(c);
    assert [a, b, c][1..] == [b, c];
  }

  function CountBroken(rules: seq<Rule>): nat
  {
    if rules == [] then 0 else (if rules[0].holds then 0 else 1) + CountBroken(rules[1..])
  }

  /** Every rule is evaluated: one message per broken rule, none otherwise. */
  lemma {:induction false} BrokenMessagesCount(rules: seq<Rule>)
    ensures |BrokenMessages(rules)| == CountBroken(rules)
    ensures BrokenMessages(rules) == [] <==> forall i :: 0 <= i < |rules| ==> rules[i].holds
  {
    if rules != [] {
      BrokenMessagesCount(rules[1..]);
      assert forall i :: 1 <= i < |rules| ==> rules[i] == rules[1..][i - 1];
    }
  }

  /** What `Validate` returns: `None` where it throws a NullReferenceException
      (the method is null, so `ToLower` fails; or the URL is null, so `Contains`
      fails), otherwise the messages of the broken rules. */
  function Violations(wt: WebTransaction, net: UrlServices): Option<seq<string>>
  {
    if wt.webMethod.None? || wt.url.None? then None
    else Some(BrokenMessages(Rules(wt.webMethod.value, wt.responseTimeMs as int, wt.url.value, net)))
  }

  /** `Validate`: the broken-rule list built one rule after the other. */
  method Validate(wt: WebTransaction, net: UrlServices) returns (r: Option<seq<string>>)
    ensures r == Violations(wt, net)
  {
    var brokenRules: seq<string> := [];
    if wt.webMethod.None? {
      return None;
    }
    var verb := wt.webMethod.value;
    if !IsWebMethodValid(verb) {
      brokenRules := brokenRules + ["Invalid web method: " + verb];
    }
    if !IsResponseTimeValid(wt.responseTimeMs as int) {
      brokenRules := brokenRules + ["Response time outside acceptable limits: " + IntToString(wt.responseTimeMs as int)];
    }
    if wt.url.None? {
      return None;
    }
    if !IsValidUrl(wt.url.value, net) {
      brokenRules := brokenRules + ["Invalid URL: " + wt.url.value];
    }
    r := Some(brokenRules);
    var rules := Rules(verb, wt.responseTimeMs as int, wt.url.value, net);
    assert rules == [rules[0], rules[1], rules[2]];
    BrokenMessagesOfThree(rules[0], rules[1], rules[2]);
    assert MessageIfBroken(rules[0]) == if IsWebMethodValid(verb) then [] else ["Invalid web method: " + verb];
    assert brokenRules == MessageIfBroken(rules[0]) + MessageIfBroken(rules[1]) + MessageIfBroken(rules[2]);
  }

  // ------------------------------------------------------- what Validate promises

  /** With a method and a URL present, the messages are those of the three
      rules in order, each present exactly when its rule is broken. */
  lemma ViolationsSpelledOut(wt: WebTransaction, net: UrlServices)
    requires wt.webMethod.Some? && wt.url.Some?
    ensures var verb, rt, url := wt.webMethod.value, wt.responseTimeMs as int, wt.url.value;
      Violations(wt, net) == Some(
        (if IsWebMethodValid(verb) then [] else ["Invalid web method: " + verb])
        + (if IsResponseTimeValid(rt) then [] else ["Response time outside acceptable limits: " + IntToString(rt)])
        + (if IsValidUrl(url, net) then [] else ["Invalid URL: " + url]))
  {
    var rules := Rules(wt.webMethod.value, wt.responseTimeMs as int, wt.url.value, net);
    assert rules == [rules[0], rules[1], rules[2]];
    BrokenMessagesOfThree(rules[0], rules[1], rules[2]);
  }

  /** A record passes validation exactly when its method and URL are present,
      the method is an allowed verb in any letter case, the response time lies
      in [0, 30000] and the URL's host resolves. */
  lemma ValidIff(wt: WebTransaction, net: UrlServices)
    ensures Violations(wt, net) == Some([]) <==>
      wt.webMethod.Some? && wt.url.Some?
      && ToLower(wt.webMethod.value) in ValidMethods
      && 0 <= wt.responseTimeMs as int <= 30000
      && IsValidUrl(wt.url.value, net)
  {
    if wt.webMethod.Some? && wt.url.Some? {
      var rules := Rules(wt.webMethod.value, wt.responseTimeMs as int, wt.url.value, net);
      assert rules == [rules[0], rules[1], rules[2]];
    BrokenMessagesOfThree(rules[0], rules[1], rules[2]);
    }
  }

  /** No short-circuit: a record breaking all three rules gets the three
      messages, in the order method, response time, URL. */
  lemma AllRulesBroken(wt: WebTransaction, net: UrlServices)
    requires wt.webMethod.Some? && wt.url.Some?
    requires !IsWebMethodValid(wt.webMethod.value)
    requires !IsResponseTimeValid(wt.responseTimeMs as int)
    requires !IsValidUrl(wt.url.value, net)
    ensures Violations(wt, net) == Some([
      "Invalid web method: " + wt.webMethod.value,
      "Response time outside acceptable limits: " + IntToString(wt.responseTimeMs as int),
      "Invalid URL: " + wt.url.value])
  {
    var rules := Rules(wt.webMethod.value, wt.responseTimeMs as int, wt.url.value, net);
    assert rules == [rules[0], rules[1], rules[2]];
    BrokenMessagesOfThree(rules[0], rules[1], rules[2]);
    assert MessageIfBroken(rules[0]) == ["Invalid web method: " + wt.webMethod.value];
    assert MessageIfBroken(rules[1]) == ["Response time outside acceptable limits: " + IntToString(wt.responseTimeMs as int)];
    assert MessageIfBroken(rules[2]) == ["Invalid URL: " + wt.url.value];
    assert Violations(wt, net) == Some(BrokenMessages(rules));
    assert BrokenMessages(rules) == [rules[0].message, rules[1].message, rules[2].message];
  }

  /** The number of messages is the number of broken rules. */
  lemma MessageCount(wt: WebTransaction, net: UrlServices)
    requires wt.webMethod.Some? && wt.url.Some?
    ensures Violations(wt, net).Some?
    ensures |Violations(wt, net).value| ==
      (if IsWebMethodValid(wt.webMethod.value) then 0 else 1)
      + (if IsResponseTimeValid(wt.responseTimeMs as int) then 0 else 1)
      + (if IsValidUrl(wt.url.value, net) then 0 else 1)
  {
    var rules := Rules(wt.webMethod.value, wt.responseTimeMs as int, wt.url.value, net);
    assert rules == [rules[0], rules[1], rules[2]];
    BrokenMessagesOfThree(rules[0], rules[1], rules[2]);
  }

  /** The method rule ignores letter case. */
  lemma MethodCaseInsensitive(verb: string)
    ensures IsWebMethodValid(verb) <==> IsWebMethodValid(ToLower(verb))
    ensures IsWebMethodValid("GET") && IsWebMethodValid("Get") && IsWebMethodValid("get")
  {
    ToLowerIdempotent(verb);
    assert ToLower("GET") == "get";
    assert ToLower("Get") == "get";
    assert ToLower("get") == "get";
  }

  lemma PatchNotAllowed()
    ensures !IsWebMethodValid("PATCH")
  {
    assert ToLower("PATCH") == "patch";
  }

  /** A PATCH record that is otherwise fine gets exactly one message, naming the verb. */
  lemma PatchIsRejected(wt: WebTransaction, net: UrlServices)
    requires wt.webMethod == Some("PATCH") && wt.url.Some?
    requires 0 <= wt.responseTimeMs as int <= 30000 && IsValidUrl(wt.url.value, net)
    ensures Violations(wt, net) == Some(["Invalid web method: PATCH"])
  {
    PatchNotAllowed();
    ViolationsSpelledOut(wt, net);
    assert IsResponseTimeValid(wt.responseTimeMs as int);
    var message := "Invalid web method: " + "PATCH";
    assert message == "Invalid web method: PATCH";
    assert [message] + [] + [] == [message];
  }

  /** The response-time bounds are inclusive. */
  lemma ResponseTimeBounds()
    ensures IsResponseTimeValid(0) && IsResponseTimeValid(30000)
    ensures !IsResponseTimeValid(-1) && !IsResponseTimeValid(30001)
  {
  }

  /** Putting the scheme in front is idempotent, and the URL rule holds only
      for a parsed host that resolves to at least one address. */
  lemma UrlRule(url: string, net: UrlServices)
    ensures WithScheme(WithScheme(url)) == WithScheme(url)
    ensures !Contains(url, "://") ==> WithScheme(url) == "http://" + url
    ensures net.tryCreateHost(WithScheme(url)).None? ==> !IsValidUrl(url, net)
    ensures forall host :: net.tryCreateHost(WithScheme(url)) == Some(host) ==>
      (net.resolve(host).ResolverError? ==> !IsValidUrl(url, net))
      && (net.resolve(host) == Addresses(0) ==> !IsValidUrl(url, net))
      && (net.resolve(host).Addresses? && net.resolve(host).count > 0 ==> IsValidUrl(url, net))
  {
  }
}
