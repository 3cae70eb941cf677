/**
 * The request body of "create report" and the class-validator rules on it:
 * three non-empty strings and five numbers, none of them optional.
 */
module CreateReportDto {
  import opened Wrappers

  /** A JSON value as it arrives in a request body; JSON cannot carry NaN or Infinity. */
  datatype Json = JNull | JBool(b: bool) | JNumber(n: real) | JString(s: string) | JComposite

  /** A parsed JSON object; a property the client did not send is simply absent (`undefined`). */
  type Body = map<string, Json>

  /** The eight properties of a report, as the client sends them and the store keeps them. */
  datatype ReportFields = ReportFields(
    location: string,
    timestamp: real,
    temperature: real,
    pressure: real,
    humidity: real,
    cloudCover: real,
    description: string,
    icon: string)

  /** The two decorator pairs the DTO uses: `@IsNotEmpty() @IsString()` and `@IsNotEmpty() @IsNumber()`. */
  datatype Rule = NonEmptyString | Number

  /** The DTO's properties in declaration order. */
  const Properties: seq<(string, Rule)> := [
    ("location", NonEmptyString),
    ("timestamp", Number),
    ("temperature", Number),
    ("pressure", Number),
    ("humidity", Number),
    ("cloudCover", Number),
    ("description", NonEmptyString),
    ("icon", NonEmptyString)
  ]

  function Get(body: Body, name: string): Option<Json>
  {
    if name in body then Some(body[name]) else None
  }

  /**
   * `@IsNotEmpty()` rejects `''`, `null` and `undefined`; `@IsString()` then asks for a string,
   * `@IsNumber()` for a finite number (every JSON number is one).
   */
  predicate Obeys(v: Option<Json>, rule: Rule)
  {
    match rule
    case NonEmptyString => v.Some? && v.value.JString? && v.value.s != ""
    case Number => v.Some? && v.value.JNumber?
  }

  /** The names of the properties in `props` that `body` violates, in declaration order. */
  function Violations(body: Body, props: seq<(string, Rule)>): (names: seq<string>)
    ensures |names| <= |props|
    ensures forall n :: n in names <==>
      exists i :: 0 <= i < |props| && props[i].0 == n && !Obeys(Get(body, n), props[i].1)
    ensures InDeclarationOrder(names, props)
  {
    if |props| == 0 then []
    else
      var rest := Violations(body, props[1..]);
      assert forall i :: 1 <= i < |props| ==> props[i] == props[1..][i - 1];
      if Obeys(Get(body, props[0].0), props[0].1) then
        OrderedShift(rest, props);
        rest
      else
        OrderedCons(props[0].0, rest, props);
        [props[0].0] + rest
  }

  /**
   * Of two listed names, the earlier one is declared before the later one; with
   * distinct property names this also rules out listing a property twice.
   */
  ghost predicate InDeclarationOrder(names: seq<string>, props: seq<(string, Rule)>)
  {
    forall i, j :: 0 <= i < j < |names| ==> DeclaredBefore(names[i], names[j], props)
  }

  /** Some property named `a` is declared before some property named `b`. */
  ghost predicate DeclaredBefore(a: string, b: string, props: seq<(string, Rule)>)
  {
    exists p, q :: 0 <= p < q < |props| && props[p].0 == a && props[q].0 == b
  }

  lemma OrderedShift(names: seq<string>, props: seq<(string, Rule)>)
    requires |props| > 0 && InDeclarationOrder(names, props[1..])
    ensures InDeclarationOrder(names, props)
  {
    forall i, j | 0 <= i < j < |names| ensures DeclaredBefore(names[i], names[j], props) {
      var p, q :| 0 <= p < q < |props[1..]| && props[1..][p].0 == names[i] && props[1..][q].0 == names[j];
      assert props[p + 1] == props[1..][p] && props[q + 1] == props[1..][q];
      assert 0 <= p + 1 < q + 1 < |props| && props[p + 1].0 == names[i] && props[q + 1].0 == names[j];
    }
  }

  lemma OrderedCons(a: string, names: seq<string>, props: seq<(string, Rule)>)
    requires |props| > 0 && props[0].0 == a && InDeclarationOrder(names, props[1..])
    requires forall n :: n in names ==> exists k :: 1 <= k < |props| && props[k].0 == n
    ensures InDeclarationOrder([a] + names, props)
  {
    OrderedShift(names, props);
    forall i, j | 0 <= i < j < |[a] + names| ensures DeclaredBefore(([a] + names)[i], ([a] + names)[j], props) {
      assert ([a] + names)[j] == names[j - 1];
      if i == 0 {
        assert names[j - 1] in names;
        var q :| 1 <= q < |props| && props[q].0 == names[j - 1];
        assert 0 <= 0 < q < |props| && props[0].0 == ([a] + names)[i] && props[q].0 == ([a] + names)[j];
      } else {
        assert ([a] + names)[i] == names[i - 1];
        assert i - 1 < j - 1 < |names|;
        assert DeclaredBefore(names[i - 1], names[j - 1], props);
      }
    }
  }

  /** The property names are pairwise distinct, so a list in declaration order names each at most once. */
  lemma NoRepeats(names: seq<string>)
    requires InDeclarationOrder(names, Properties)
    ensures forall i, j :: 0 <= i < j < |names| ==> names[i] != names[j]
  {
    forall i, j | 0 <= i < j < |names| ensures names[i] != names[j] {
      assert DeclaredBefore(names[i], names[j], Properties);
      var p, q :| 0 <= p < q < |Properties| && Properties[p].0 == names[i] && Properties[q].0 == names[j];
      assert Properties[p].0 != Properties[q].0;
    }
  }

  /** The validity of a body, property by property, as the DTO class declares it. */
  ghost predicate IsValid(body: Body)
  {
    && "location" in body && body["location"].JString? && body["location"].s != ""
    && "timestamp" in body && body["timestamp"].JNumber?
    && "temperature" in body && body["temperature"].JNumber?
    && "pressure" in body && body["pressure"].JNumber?
    && "humidity" in body && body["humidity"].JNumber?
    && "cloudCover" in body && body["cloudCover"].JNumber?
    && "description" in body && body["description"].JString? && body["description"].s != ""
    && "icon" in body && body["icon"].JString? && body["icon"].s != ""
  }

  /** The JSON object a client sends for a report: `JSON.stringify` of the eight fields. */
  function ToBody(f: ReportFields): Body
  {
    map[
      "location" := JString(f.location),
      "timestamp" := JNumber(f.timestamp),
      "temperature" := JNumber(f.temperature),
      "pressure" := JNumber(f.pressure),
      "humidity" := JNumber(f.humidity),
      "cloudCover" := JNumber(f.cloudCover),
      "description" := JString(f.description),
      "icon" := JString(f.icon)
    ]
  }

  /**
   * The validation step in front of `create`: a body passes only when all eight
   * properties obey their rules, and then the report fields are the body's values;
   * otherwise the answer (HTTP 400) names exactly the failing properties.
   */
  function Validate(body: Body): (r: Result<ReportFields, seq<string>>)
    ensures r.Success? <==> IsValid(body)
    ensures r.Success? ==> forall k :: k in ToBody(r.value) ==> k in body && body[k] == ToBody(r.value)[k]
    ensures r.Failure? ==> |r.error| > 0 && forall n :: n in r.error <==>
      exists i :: 0 <= i < |Properties| && Properties[i].0 == n && !Obeys(Get(body, n), Properties[i].1)
    ensures r.Failure? ==> InDeclarationOrder(r.error, Properties)
    ensures r.Failure? ==> forall i, j :: 0 <= i < j < |r.error| ==> r.error[i] != r.error[j]
  {
    var bad := Violations(body, Properties);
    NoRepeats(bad);
    if bad == [] then
      assert forall i :: 0 <= i < |Properties| ==> Obeys(Get(body, Properties[i].0), Properties[i].1) by {
        forall i | 0 <= i < |Properties| ensures Obeys(Get(body, Properties[i].0), Properties[i].1) {
          assert Properties[i].0 !in bad;
        }
      }
      assert Properties[0].0 == "location" && Properties[1].0 == "timestamp";
      assert Properties[2].0 == "temperature" && Properties[3].0 == "pressure";
      assert Properties[4].0 == "humidity" && Properties[5].0 == "cloudCover";
      assert Properties[6].0 == "description" && Properties[7].0 == "icon";
      Success(ReportFields(
        body["location"].s, body["timestamp"].n, body["temperature"].n, body["pressure"].n,
        body["humidity"].n, body["cloudCover"].n, body["description"].s, body["icon"].s))
    else
      assert !IsValid(body) by {
        var n := bad[0];
        assert n in bad;
        var i :| 0 <= i < |Properties| && Properties[i].0 == n && !Obeys(Get(body, n), Properties[i].1);
        assert i == 0 || i == 1 || i == 2 || i == 3 || i == 4 || i == 5 || i == 6 || i == 7;
      }
      Failure(bad)
  }

  /**
   * What the front end sends passes validation exactly when its three strings are
   * non-empty, and then validation hands back the very fields that were sent.
   */
  lemma ValidateToBody(f: ReportFields)
    ensures Validate(ToBody(f)).Success? <==> f.location != "" && f.description != "" && f.icon != ""
    ensures Validate(ToBody(f)).Success? ==> Validate(ToBody(f)).value == f
  {
    var body := ToBody(f);
    var r := Validate(body);
    if r.Success? {
      assert body["location"] == JString(r.value.location);
      assert body["timestamp"] == JNumber(r.value.timestamp);
      assert body["temperature"] == JNumber(r.value.temperature);
      assert body["pressure"] == JNumber(r.value.pressure);
      assert body["humidity"] == JNumber(r.value.humidity);
      assert body["cloudCover"] == JNumber(r.value.cloudCover);
      assert body["description"] == JString(r.value.description);
      assert body["icon"] == JString(r.value.icon);
    }
  }
}
