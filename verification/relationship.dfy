/**
 * The relationship badge between two people: which label it shows for the
 * data the relations endpoint returned, and the endpoint URL it fetches.
 */
module Relationship {
  import opened Wrappers
  import opened Strings
  import opened Json

  // ------------------------------------------------------------ label

  /** `v?.name`: the field of an object, undefined for anything else or a missing field. */
  function Get(v: Option<Json>, name: string): (r: Option<Json>)
    ensures r.Some? <==> v.Some? && v.value.JObj? && name in v.value.fields
    ensures r.Some? ==> r.value == v.value.fields[name]
  {
    if v.Some? && v.value.JObj? && name in v.value.fields then Some(v.value.fields[name]) else None
  }

  /** `this._data?.data?.relationship_string`; `None` is `undefined`. */
  function Relation(fetched: Option<Json>): (r: Option<Json>)
    ensures r.Some? <==>
              && fetched.Some? && fetched.value.JObj? && "data" in fetched.value.fields
              && fetched.value.fields["data"].JObj?
              && "relationship_string" in fetched.value.fields["data"].fields
    ensures r.Some? ==> r.value == fetched.value.fields["data"].fields["relationship_string"]
  {
    Get(Get(fetched, "data"), "relationship_string")
  }

  /** `associationVia?.name_display` for `associationVia = this._data?.data?.association_via`. */
  function ViaName(fetched: Option<Json>): (r: Option<Json>)
    ensures r.Some? <==>
              && fetched.Some? && fetched.value.JObj? && "data" in fetched.value.fields
              && fetched.value.fields["data"].JObj?
              && "association_via" in fetched.value.fields["data"].fields
              && fetched.value.fields["data"].fields["association_via"].JObj?
              && "name_display" in fetched.value.fields["data"].fields["association_via"].fields
    ensures r.Some? ==> r.value == fetched.value.fields["data"].fields["association_via"].fields["name_display"]
  {
    Get(Get(Get(fetched, "data"), "association_via"), "name_display")
  }

  /** What the badge shows; the translated words themselves are not modelled. */
  datatype RelationLabel =
    | SelfLabel                    // 'self'
    | Blank                        // a non-breaking space while there is no answer
    | AcquaintedThrough(name: Json) // 'Acquainted through' and the bridging person's name
    | NotRelated                   // 'Not Related'
    | Verbatim(relation: Json)     // the relationship text as the server phrased it

  /**
   * `renderContent`. The same person is always 'self'; otherwise no
   * relationship field shows a blank, an empty one shows the association
   * (or 'Not Related' without one), and anything else is shown as sent.
   */
  function RelationshipLabel(person1: string, person2: string, fetched: Option<Json>): (r: RelationLabel)
    ensures r.SelfLabel? <==> person1 == person2
    ensures r.Blank? <==> person1 != person2 && Relation(fetched).None?
    ensures r.AcquaintedThrough? <==>
              person1 != person2 && Relation(fetched) == Some(JStr(""))
              && ViaName(fetched).Some? && Truthy(ViaName(fetched).value)
    ensures r.AcquaintedThrough? ==> Some(r.name) == ViaName(fetched)
    ensures r.NotRelated? <==>
              person1 != person2 && Relation(fetched) == Some(JStr(""))
              && !(ViaName(fetched).Some? && Truthy(ViaName(fetched).value))
    ensures r.Verbatim? <==> person1 != person2 && Relation(fetched).Some? && Relation(fetched) != Some(JStr(""))
    ensures r.Verbatim? ==> Some(r.relation) == Relation(fetched)
  {
    var relation := Relation(fetched);
    var via := ViaName(fetched);
    if person1 == person2 then SelfLabel
    else if relation.None? then Blank
    else if relation.value == JStr("") then
      if via.Some? && Truthy(via.value) then AcquaintedThrough(via.value) else NotRelated
    else Verbatim(relation.value)
  }

  /** For one person the answer, whatever it is or whether it has arrived, does not matter. */
  lemma SelfIgnoresData(person: string, fetched1: Option<Json>, fetched2: Option<Json>)
    ensures RelationshipLabel(person, person, fetched1) == RelationshipLabel(person, person, fetched2) == SelfLabel
  {
  }

  /**
   * Only the relationship text and the bridging person's name decide the label:
   * two answers that agree on those render alike.
   */
  lemma LabelDependsOnTwoFields(person1: string, person2: string, fetched1: Option<Json>, fetched2: Option<Json>)
    requires Relation(fetched1) == Relation(fetched2)
    requires ViaName(fetched1) == ViaName(fetched2)
    ensures RelationshipLabel(person1, person2, fetched1) == RelationshipLabel(person1, person2, fetched2)
  {
  }

  /** The response for two different people in its usual shape. */
  function Response(relation: string, via: Option<string>): Json {
    var data := map["relationship_string" := JStr(relation)];
    var data' := if via.Some? then data["association_via" := JObj(map["name_display" := JStr(via.value)])] else data;
    JObj(map["data" := JObj(data')])
  }

  /** On well-formed responses: the phrase if there is one, else the bridging person, else 'Not Related'. */
  lemma LabelOfResponse(person1: string, person2: string, relation: string, via: Option<string>)
    requires person1 != person2
    ensures var r := RelationshipLabel(person1, person2, Some(Response(relation, via)));
            (relation != "" ==> r == Verbatim(JStr(relation)))
            && (relation == "" && via.Some? && via.value != "" ==> r == AcquaintedThrough(JStr(via.value)))
            && (relation == "" && (via.None? || via.value == "") ==> r == NotRelated)
  {
    var j := Response(relation, via);
    assert Relation(Some(j)) == Some(JStr(relation));
    if via.Some? {
      assert ViaName(Some(j)) == Some(JStr(via.value));
    } else {
      assert ViaName(Some(j)).None?;
    }
  }

  // ------------------------------------------------------------ URL

  /** `settings?.relationshipIncludeAssociations ?? true`, read for its truthiness. */
  function IncludeBridge(setting: Option<Json>): (r: bool)
    ensures setting.None? || setting == Some(JNull) ==> r
    ensures setting.Some? && setting.value != JNull ==> (r <==> Truthy(setting.value))
    ensures setting == Some(JBool(false)) || setting == Some(JStr("")) ==> !r
  {
    setting.None? || setting.value.JNull? || Truthy(setting.value)
  }

  /** `lang || 'en'`. */
  function Locale(lang: string): (r: string)
    ensures r != ""
    ensures lang != "" ==> r == lang
    ensures lang == "" ==> r == "en"
  {
    if lang == "" then "en" else lang
  }

  /** `&include_associations=1&include_partner_links=1`, written as its four pieces. */
  const BridgeQuery: string := "&" + "include_associations=1" + "&" + "include_partner_links=1"

  /** The association part of the query, present unless the setting switches it off. */
  function Bridge(setting: Option<Json>): (r: string)
    ensures IncludeBridge(setting) ==> r == BridgeQuery
    ensures !IncludeBridge(setting) ==> r == ""
  {
    if IncludeBridge(setting) then BridgeQuery else ""
  }

  /**
   * `getUrl`: the relations endpoint for the two people, in the user's locale:
   * the relations path followed by exactly the parameters of `Params`.
   */
  function Url(person1: string, person2: string, setting: Option<Json>, lang: string): (r: string)
    ensures r == "/api/relations/" + person1 + "/" + person2 + "?" + QueryString(Params(setting, lang))
  {
    var path := "/api/relations/" + person1 + "/" + person2;
    QueryText(setting, lang);
    PathThenQuery(path, Locale(lang) + Bridge(setting));
    path + "?depth=20&locale=" + (Locale(lang) + Bridge(setting))
  }

  /** The query parameters the endpoint is asked with, in order. */
  function Params(setting: Option<Json>, lang: string): (r: seq<(string, string)>)
    ensures |r| >= 2 && r[0] == ("depth", "20") && r[1] == ("locale", Locale(lang))
    ensures ("include_associations", "1") in r <==> IncludeBridge(setting)
    ensures ("include_partner_links", "1") in r <==> IncludeBridge(setting)
  {
    [("depth", "20"), ("locale", Locale(lang))]
      + if IncludeBridge(setting) then [("include_associations", "1"), ("include_partner_links", "1")] else []
  }

  /** The `name=value` items of a query, in order. */
  function Items(params: seq<(string, string)>): (r: seq<string>)
    ensures |r| == |params|
    ensures forall i :: 0 <= i < |r| ==> r[i] == params[i].0 + "=" + params[i].1
  {
    seq(|params|, i requires 0 <= i < |params| => params[i].0 + "=" + params[i].1)
  }

  /** A query string: the items joined with `&`. */
  function QueryString(params: seq<(string, string)>): string {
    Join(Items(params), "&")
  }

  /** The items of `Params`, written out. */
  lemma ParamItems(setting: Option<Json>, lang: string)
    ensures IncludeBridge(setting) ==>
              Items(Params(setting, lang))
              == ["depth=20", "locale=" + Locale(lang), "include_associations=1", "include_partner_links=1"]
    ensures !IncludeBridge(setting) ==> Items(Params(setting, lang)) == ["depth=20", "locale=" + Locale(lang)]
  {
    var params := Params(setting, lang);
    var items := Items(params);
    assert items[0] == "depth" + "=" + "20" == "depth=20";
    assert "locale" + "=" == "locale=";
    assert items[1] == "locale" + "=" + Locale(lang) == "locale=" + Locale(lang);
    if IncludeBridge(setting) {
      assert params[2] == ("include_associations", "1") && params[3] == ("include_partner_links", "1");
      assert items[2] == "include_associations" + "=" + "1" == "include_associations=1";
      assert items[3] == "include_partner_links" + "=" + "1" == "include_partner_links=1";
      assert |items| == 4 && items == [items[0], items[1], items[2], items[3]];
    } else {
      assert |items| == 2 && items == [items[0], items[1]];
    }
  }

  /** Joining the bridged items gives the text of the bridged query. */
  lemma BridgedQueryText(locale: string)
    ensures Join(["depth=20", "locale=" + locale, "include_associations=1", "include_partner_links=1"], "&")
            == "depth=20&locale=" + locale + BridgeQuery
  {
    var items := ["depth=20", "locale=" + locale, "include_associations=1", "include_partner_links=1"];
    assert items[1..][1..] == items[2..] && items[2..][1..] == ["include_partner_links=1"];
    assert Join(items[2..], "&") == "include_associations=1" + "&" + "include_partner_links=1";
    assert Join(items[1..], "&") == "locale=" + locale + "&" + ("include_associations=1" + "&" + "include_partner_links=1");
    assert Join(items, "&")
           == "depth=20" + "&" + ("locale=" + locale + "&" + ("include_associations=1" + "&" + "include_partner_links=1"));
    assert "depth=20" + "&" + "locale=" == "depth=20&locale=";
  }

  /** Joining the plain items gives the text of the plain query. */
  lemma PlainQueryText(locale: string)
    ensures Join(["depth=20", "locale=" + locale], "&") == "depth=20&locale=" + locale
  {
    assert ["depth=20", "locale=" + locale][1..] == ["locale=" + locale];
  }

  /** The query of `Params` is the text after the `?` in `getUrl`. */
  lemma QueryText(setting: Option<Json>, lang: string)
    ensures QueryString(Params(setting, lang)) == "depth=20&locale=" + Locale(lang) + Bridge(setting)
  {
    ParamItems(setting, lang);
    if IncludeBridge(setting) {
      BridgedQueryText(Locale(lang));
    } else {
      PlainQueryText(Locale(lang));
    }
  }

  /** Moving the `?` from the query text to the path. */
  lemma PathThenQuery(path: string, rest: string)
    ensures path + "?depth=20&locale=" + rest == path + "?" + ("depth=20&locale=" + rest)
  {
    assert "?" + "depth=20&locale=" == "?depth=20&locale=";
  }

  /** A server reading the URL: the text after the `?`, cut at each `&` and then at the first `=`. */
  function ParseQuery(url: string): seq<(string, string)> {
    var halves := Split(url, '?');
    if |halves| != 2 then []
    else
      var items := Split(halves[1], '&');
      seq(|items|, i requires 0 <= i < |items| =>
            var kv := Split(items[i], '=');
            if |kv| == 2 then (kv[0], kv[1]) else (items[i], ""))
  }

  /** The characters that would make a parameter ambiguous. */
  predicate Plain(s: string) {
    '?' !in s && '&' !in s && '=' !in s
  }

  /** A `name=value` item splits back into its name and value. */
  lemma ItemSplits(name: string, value: string)
    requires '=' !in name && '=' !in value
    ensures Split(name + "=" + value, '=') == [name, value]
  {
    SplitAtFirst(name, '=', value);
    SplitNoSep(value, '=');
  }

  /** Reading a query string back gives its parameters, when none of them holds `&` or `=`. */
  lemma ParseQueryString(path: string, params: seq<(string, string)>)
    requires '?' !in path && params != []
    requires forall i :: 0 <= i < |params| ==> Plain(params[i].0) && Plain(params[i].1)
    ensures ParseQuery(path + "?" + QueryString(params)) == params
  {
    var items := Items(params);
    var query := QueryString(params);
    JoinAvoids(items, '&', '?');
    SplitAtFirst(path, '?', query);
    SplitNoSep(query, '?');
    SplitJoin(items, '&');
    var r := ParseQuery(path + "?" + query);
    assert |r| == |params|;
    forall i | 0 <= i < |params|
      ensures r[i] == params[i]
    {
      ItemSplits(params[i].0, params[i].1);
    }
  }

  /** Every parameter name and value is plain when the locale is. */
  lemma ParamsPlain(setting: Option<Json>, lang: string)
    requires Plain(Locale(lang))
    ensures forall i :: 0 <= i < |Params(setting, lang)| ==>
              Plain(Params(setting, lang)[i].0) && Plain(Params(setting, lang)[i].1)
  {
    PlainWord("depth");
    PlainWord("20");
    PlainWord("locale");
    PlainWord("1");
    PlainWord("include_associations");
    PlainWord("include_partner_links");
  }

  /** Text of letters, digits and underscores only is plain. */
  lemma PlainWord(w: string)
    requires forall i :: 0 <= i < |w| ==> w[i] == '_' || 'a' <= w[i] <= 'z' || '0' <= w[i] <= '9'
    ensures Plain(w)
  {
  }

  /**
   * The URL says what it means: for ids without `?` and a locale without
   * `?`, `&` or `=`, reading the query back gives exactly `Params`.
   */
  lemma ParseUrl(person1: string, person2: string, setting: Option<Json>, lang: string)
    requires '?' !in person1 && '?' !in person2 && Plain(Locale(lang))
    ensures ParseQuery(Url(person1, person2, setting, lang)) == Params(setting, lang)
  {
    ParamsPlain(setting, lang);
    ParseQueryString("/api/relations/" + person1 + "/" + person2, Params(setting, lang));
  }

  /** Joining pieces that avoid a character, with a separator other than it, avoids it too. */
  lemma {:induction false} JoinAvoids(parts: seq<string>, sep: char, c: char)
    requires c != sep
    requires forall i :: 0 <= i < |parts| ==> c !in parts[i]
    ensures c !in Join(parts, [sep])
    decreases |parts|
  {
    if |parts| > 1 {
      JoinAvoids(parts[1..], sep, c);
    }
  }

  /** Whether the association bridge was asked for can be read off the URL. */
  lemma BridgeVisible(person1: string, person2: string, setting: Option<Json>, lang: string)
    requires '?' !in person1 && '?' !in person2 && Plain(Locale(lang))
    ensures ("include_associations", "1") in ParseQuery(Url(person1, person2, setting, lang)) <==> IncludeBridge(setting)
    ensures var q := ParseQuery(Url(person1, person2, setting, lang));
            |q| >= 2 && q[1] == ("locale", if lang == "" then "en" else lang)
  {
    ParseUrl(person1, person2, setting, lang);
  }
}
