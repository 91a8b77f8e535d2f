/**
 * Which configuration keys the server-settings editor lists, in which order,
 * which of them a search shows, and how they are grouped for display.
 */
module ConfigKeys {
  import opened Wrappers
  import opened Strings
  import opened ConfigText
  import opened Grouping

  /** Keys always listed, first and in this order, whether or not the server reports them. */
  const PriorityKeys: seq<string> := [
    "BASE_URL",
    "FRONTEND_URL",
    "DEFAULT_FROM_EMAIL",
    "EMAIL_HOST",
    "EMAIL_PORT",
    "EMAIL_HOST_USER",
    "EMAIL_HOST_PASSWORD"
  ]

  lemma PriorityKeysDistinct()
    ensures NoDup(PriorityKeys)
  {
    assert PriorityKeys[3][6] != PriorityKeys[4][6];
    assert PriorityKeys[5][11] != PriorityKeys[6][11];
  }

  // ---------------------------------------------------------------- all keys

  /** The position at which `x` first occurs in `xs`. */
  function FirstIndex<T(==)>(xs: seq<T>, x: T): (i: nat)
    requires x in xs
    ensures i < |xs| && xs[i] == x
    ensures forall k :: 0 <= k < i ==> xs[k] != x
  {
    if xs[0] == x then 0 else 1 + FirstIndex(xs[1..], x)
  }

  /** Appending an element does not move the first occurrence of anything already there. */
  lemma FirstIndexAppend(init: seq<string>, last: string, x: string)
    requires x in init
    ensures FirstIndex(init + [last], x) == FirstIndex(init, x)
  {
    var k := FirstIndex(init, x);
    assert (init + [last])[k] == x;
  }

  /** A new element first occurs where it was appended. */
  lemma FirstIndexOfNew(init: seq<string>, last: string)
    requires last !in init
    ensures FirstIndex(init + [last], last) == |init|
  {
    assert (init + [last])[|init|] == last;
  }

  /**
   * The distinct elements of `xs` in order of first occurrence: what spreading a
   * JavaScript `Set` built from `xs` yields.
   */
  function Dedupe(xs: seq<string>): (r: seq<string>)
    ensures NoDup(r)
    ensures forall x :: x in r <==> x in xs
    ensures forall i, j :: 0 <= i < j < |r| ==> FirstIndex(xs, r[i]) < FirstIndex(xs, r[j])
    decreases |xs|
  {
    if xs == [] then []
    else
      var init := xs[..|xs| - 1];
      var last := xs[|xs| - 1];
      var d := Dedupe(init);
      assert xs == init + [last];
      forall x | x in init
        ensures FirstIndex(xs, x) == FirstIndex(init, x)
      {
        FirstIndexAppend(init, last, x);
      }
      if last in d then d
      else
        FirstIndexOfNew(init, last);
        d + [last]
  }

  /** Deduplicating a longer list keeps the deduplication of its prefix in front. */
  lemma {:induction false} DedupeExtends(a: seq<string>, b: seq<string>)
    ensures |Dedupe(a)| <= |Dedupe(a + b)|
    ensures Dedupe(a + b)[..|Dedupe(a)|] == Dedupe(a)
    decreases |b|
  {
    if b == [] {
      assert a + b == a;
    } else {
      var b' := b[..|b| - 1];
      DedupeExtends(a, b');
      assert (a + b)[..|a + b| - 1] == a + b';
    }
  }

  /** Dropping the last element of a list without duplicates leaves one without it. */
  lemma NoDupInit(xs: seq<string>)
    requires NoDup(xs) && xs != []
    ensures NoDup(xs[..|xs| - 1]) && xs[|xs| - 1] !in xs[..|xs| - 1]
  {
  }

  /** Appending an element not seen before appends it to the deduplication. */
  lemma DedupeAppendNew(init: seq<string>, last: string)
    requires last !in init
    ensures Dedupe(init + [last]) == Dedupe(init) + [last]
  {
    var xs := init + [last];
    assert xs[..|xs| - 1] == init && xs[|xs| - 1] == last;
  }

  lemma {:induction false} DedupeDistinct(xs: seq<string>)
    requires NoDup(xs)
    ensures Dedupe(xs) == xs
    decreases |xs|
  {
    if xs != [] {
      var init := xs[..|xs| - 1];
      var last := xs[|xs| - 1];
      NoDupInit(xs);
      DedupeDistinct(init);
      assert xs == init + [last];
      DedupeAppendNew(init, last);
    }
  }

  /**
   * `_allKeys`: the priority keys followed by the configuration's keys (in the
   * order `Object.keys` lists them), each key once.
   */
  function AllKeys(keyOrder: seq<string>): (r: seq<string>)
    ensures NoDup(r)
    ensures forall k :: k in r <==> k in PriorityKeys || k in keyOrder
    ensures |PriorityKeys| <= |r| && r[..|PriorityKeys|] == PriorityKeys
    ensures forall i, j :: 0 <= i < j < |r| ==>
              FirstIndex(PriorityKeys + keyOrder, r[i]) < FirstIndex(PriorityKeys + keyOrder, r[j])
  {
    PriorityKeysDistinct();
    DedupeDistinct(PriorityKeys);
    DedupeExtends(PriorityKeys, keyOrder);
    Dedupe(PriorityKeys + keyOrder)
  }

  // --------------------------------------------------------------- filtering

  /** A key matches a lower-cased query through its own name or through its label. */
  predicate MatchesQuery(key: string, q: string) {
    Contains(ToLower(key), q) || Contains(ToLower(Label(key)), q)
  }

  /** The search text as `_filteredKeys` compares it. */
  function Query(filter: string): string {
    ToLower(Trim(filter))
  }

  /**
   * `_filteredKeys`: a blank search shows every key; otherwise the keys whose
   * name or label contains the query, ignoring case, in their listed order.
   */
  function FilteredKeys(filter: string, keyOrder: seq<string>): (r: seq<string>)
    ensures AllSpace(filter) ==> r == AllKeys(keyOrder)
    ensures !AllSpace(filter) ==>
              forall k :: k in r <==> k in AllKeys(keyOrder) && MatchesQuery(k, Query(filter))
    ensures IsSubseq(r, AllKeys(keyOrder))
    ensures NoDup(r)
  {
    var q := Query(filter);
    if q == [] then
      SubseqRefl(AllKeys(keyOrder));
      AllKeys(keyOrder)
    else
      Keep(AllKeys(keyOrder), k => MatchesQuery(k, q))
  }

  // ---------------------------------------------------------------- grouping

  /** `CONFIG_GROUPS`: each group with the tests of its `matches` predicate. */
  const ConfigGroups: seq<Rule<GroupInfo>> := [
    Rule([Exact("DEFAULT_FROM_EMAIL"), Prefix("EMAIL_")], GroupInfo("email", "Email / SMTP")),
    Rule([Exact("BASE_URL"), Exact("FRONTEND_URL"), Exact("STATIC_PATH"), Prefix("CORS_")],
         GroupInfo("urls", "URLs / Frontend")),
    Rule([Exact("SECRET_KEY"), Exact("REGISTRATION_DISABLED"), Prefix("JWT_"), Prefix("OIDC_")],
         GroupInfo("auth", "Authentication / Security")),
    Rule([Exact("TREE"), Exact("USER_DB_URI"), Exact("NEW_DB_BACKEND"), Exact("MEDIA_BASE_DIR"),
          Exact("MEDIA_PREFIX_TREE"), Exact("IGNORE_DB_LOCK"), Prefix("POSTGRES_")],
         GroupInfo("tree", "Tree / Database / Media")),
    Rule([Prefix("SEARCH_"), Prefix("LLM_"), Prefix("VECTOR_")], GroupInfo("searchAi", "Search / AI")),
    Rule([Infix("CACHE"), Prefix("RATE_LIMIT_"), Exact("LOG_LEVEL"), Exact("DISABLE_TELEMETRY"),
          Exact("REPORT_DIR"), Exact("EXPORT_DIR"), Prefix("CELERY_")],
         GroupInfo("runtime", "Runtime / Cache / Performance"))
  ]

  const OtherGroup: GroupInfo := GroupInfo("other", "Other settings")

  /** The groups in display order: the declared groups, then the fallback. */
  function GroupOrder(): (r: seq<GroupInfo>)
    ensures |r| == |ConfigGroups| + 1 && r[|ConfigGroups|] == OtherGroup
    ensures forall i :: 0 <= i < |ConfigGroups| ==> r[i] == ConfigGroups[i].outcome
    ensures NoDup(r)
  {
    seq(|ConfigGroups|, i requires 0 <= i < |ConfigGroups| => ConfigGroups[i].outcome) + [OtherGroup]
  }

  /** The group a key is listed under: the first declared group that matches, else the fallback. */
  function GroupOf(key: string): (g: GroupInfo)
    ensures g in GroupOrder()
  {
    var order := GroupOrder();
    match FirstMatch(ConfigGroups, key)
    case Some(i) => assert order[i] == ConfigGroups[i].outcome; ConfigGroups[i].outcome
    case None => assert order[|ConfigGroups|] == OtherGroup; OtherGroup
  }

  /** `GroupOf` picks the first matching group in declaration order, and the fallback only when none matches. */
  lemma GroupOfIsFirstMatch(key: string)
    ensures forall i :: 0 <= i < |ConfigGroups| && RuleMatches(ConfigGroups[i], key)
                        && (forall j :: 0 <= j < i ==> !RuleMatches(ConfigGroups[j], key))
                        ==> GroupOf(key) == ConfigGroups[i].outcome
    ensures GroupOf(key) == OtherGroup <==> forall i :: 0 <= i < |ConfigGroups| ==> !RuleMatches(ConfigGroups[i], key)
  {
    var order := GroupOrder();
    match FirstMatch(ConfigGroups, key)
    case Some(m) =>
      assert order[m] == ConfigGroups[m].outcome;
      assert order[m] != order[|ConfigGroups|];
    case None =>
  }

  /**
   * `_groupedVisibleKeys`: the visible keys of the current search, grouped by
   * `GroupOf` in `GroupOrder`, each group sorted in descending order. What the
   * grouping guarantees for any order and classifier is stated by `BuildGroups`;
   * here it is instantiated with the declared groups.
   */
  function GroupedVisibleKeys(filter: string, keyOrder: seq<string>, le: (string, string) -> bool)
    : (r: seq<Group>)
    requires Total(le)
    ensures IsSubseq(Infos(r), GroupOrder()) && NoDup(Infos(r))
    ensures forall i :: 0 <= i < |r| ==> r[i].keys != [] && Descending(r[i].keys, le)
    ensures ShowsExactly(r, FilteredKeys(filter, keyOrder), GroupOf)
    ensures forall i :: 0 <= i < |r| ==>
              multiset(r[i].keys) == multiset(Members(FilteredKeys(filter, keyOrder), r[i].info, GroupOf))
    ensures forall i :: 0 <= i < |r| ==> NoDup(r[i].keys)
  {
    var order := GroupOrder();
    var keys := FilteredKeys(filter, keyOrder);
    BuildGroupsShowsAll(order, keys, GroupOf, le);
    BuildGroups(order, keys, GroupOf, le)
  }

  /**
   * Searching for a key's label finds the key: the trimmed, lower-cased label
   * is part of the lower-cased label.
   */
  lemma SearchFindsLabel(key: string, keyOrder: seq<string>)
    requires key in AllKeys(keyOrder) && !AllSpace(Label(key))
    ensures key in FilteredKeys(Label(key), keyOrder)
  {
    var l := Label(key);
    LowerTrimmedInLower(l);
    assert MatchesQuery(key, Query(l));
  }

  /** `_isGroupOpen`: every group is expanded during a search; otherwise only email and URLs. */
  function IsGroupOpen(filter: string, id: string): (r: bool)
    ensures !AllSpace(filter) ==> r
    ensures AllSpace(filter) ==> (r <==> id == "email" || id == "urls")
  {
    if Trim(filter) != [] then true else id in ["email", "urls"]
  }

  /** With a blank search exactly the first two declared groups start expanded. */
  lemma DefaultOpenGroups(filter: string)
    requires AllSpace(filter)
    ensures forall i :: 0 <= i < |GroupOrder()| ==> (IsGroupOpen(filter, GroupOrder()[i].id) <==> i < 2)
  {
    var order := GroupOrder();
    assert order[0].id == "email" && order[1].id == "urls";
    forall i | 2 <= i < |order| ensures order[i].id != "email" && order[i].id != "urls" {
      if i < |ConfigGroups| { assert order[i] == ConfigGroups[i].outcome; }
    }
  }
}
