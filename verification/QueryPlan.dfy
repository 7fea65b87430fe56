/**
Grouping due alerts into portal queries by canonical signature.

The SHA-256 digest is an input, injective where a statement needs it.
*/
module QueryPlan {
  import opened Wrappers
  import opened Conditions
  import opened Alerts
  import opened SearchPlanner
  import Rules
  import Texts

  // ----- The canonical text of a query

  predicate IsLeast(k: string, keys: set<string>) {
    k in keys && forall x :: x in keys ==> x == k || Texts.Less(k, x)
  }

  lemma {:induction false} LeastExists(keys: set<string>)
    requires keys != {}
    ensures exists k :: IsLeast(k, keys)
    decreases |keys|
  {
    var k :| k in keys;
    var rest := keys - {k};
    assert forall x :: x in keys ==> x == k || x in rest;
    if rest != {} {
      LeastExists(rest);
      var m :| IsLeast(m, rest);
      Texts.LessIsTotal(k, m);
      if Texts.Less(k, m) {
        forall x | x in rest ensures Texts.Less(k, x) {
          if x != m {
            Texts.LessIsTransitive(k, m, x);
          }
        }
        assert IsLeast(k, keys);
      } else {
        assert IsLeast(m, keys);
      }
    } else {
      assert IsLeast(k, keys);
    }
  }

  lemma LeastIsUnique(keys: set<string>)
    ensures forall k, l :: IsLeast(k, keys) && IsLeast(l, keys) ==> k == l
  {
    forall k, l | IsLeast(k, keys) && IsLeast(l, keys)
      ensures k == l
    {
      if k != l {
        Texts.LessIsAsymmetric(k, l);
      }
    }
  }

  function Least(keys: set<string>): (k: string)
    requires keys != {}
    ensures k in keys
  {
    LeastExists(keys);
    LeastIsUnique(keys);
    var k :| k in keys && IsLeast(k, keys);
    k
  }

  /** `sorted(keys)`. */
  function Sorted(keys: set<string>): (s: seq<string>)
    ensures forall k :: k in s <==> k in keys
    ensures |s| == |keys|
  {
    if keys == {} then []
    else
      var k := Least(keys);
      [k] + Sorted(keys - {k})
  }

  /** `sorted(params.items())`, each written as key=value. */
  function Items(params: Params): (items: seq<string>)
    ensures |items| == |params.Keys|
    decreases |params.Keys|
  {
    if params.Keys == {} then []
    else
      var k := Least(params.Keys);
      var rest := params - {k};
      assert rest.Keys == params.Keys - {k};
      [k + ['='] + params[k]] + Items(rest)
  }

  lemma {:induction false} SortedIsAscending(keys: set<string>)
    ensures forall i, j :: 0 <= i < j < |Sorted(keys)| ==> Texts.Less(Sorted(keys)[i], Sorted(keys)[j])
  {
    if keys == {} {
    } else {
      var k := Least(keys);
      LeastIsFirst(keys);
      hide Least;
      var rest := Sorted(keys - {k});
      SortedIsAscending(keys - {k});
      forall j | 0 <= j < |rest|
        ensures Texts.Less(k, rest[j])
      {
        assert rest[j] in rest;
      }
    }
  }

  lemma LeastIsFirst(keys: set<string>)
    requires keys != {}
    ensures forall x :: x in keys ==> x == Least(keys) || Texts.Less(Least(keys), x)
  {
    LeastExists(keys);
  }

  lemma SortedStep(keys: set<string>)
    requires keys != {}
    ensures Sorted(keys) == [Least(keys)] + Sorted(keys - {Least(keys)})
  {
  }

  predicate AreItems(params: Params, keys: seq<string>, items: seq<string>) {
    && |items| == |keys|
    && forall i :: 0 <= i < |keys| ==> keys[i] in params && items[i] == keys[i] + "=" + params[keys[i]]
  }

  /** Every parameter in the order of its name, with its own text. */
  lemma {:induction false} ItemsAreSorted(params: Params)
    ensures AreItems(params, Sorted(params.Keys), Items(params))
    decreases |params.Keys|
  {
    if params.Keys == {} {
    } else {
      var k := Least(params.Keys);
      var rest := params - {k};
      FirstItem(params);
      SortedStep(params.Keys);
      assert Items(params) == [Items(params)[0]] + Items(params)[1..];
      hide Items, Sorted, Least, AreItems;
      assert rest.Keys == params.Keys - {k};
      ItemsAreSorted(rest);
      OneItemMore(params, k, Sorted(rest.Keys), Items(rest));
    }
  }

  lemma OneItemMore(params: Params, k: string, keys: seq<string>, items: seq<string>)
    requires k in params && AreItems(params - {k}, keys, items)
    ensures AreItems(params, [k] + keys, [k + ['='] + params[k]] + items)
  {
  }

  /** `"&".join(items)`. */
  function Joined(items: seq<string>): string {
    if |items| == 0 then ""
    else if |items| == 1 then items[0]
    else items[0] + ['&'] + Joined(items[1..])
  }

  function Canonical(portal: string, params: Params): string {
    portal + ['|'] + Joined(Items(params))
  }

  ghost predicate Clean(params: Params) {
    forall k :: k in params ==> '=' !in k && '&' !in k && '&' !in params[k]
  }

  lemma {:induction false} ItemsAreClean(params: Params)
    requires Clean(params)
    ensures forall i :: 0 <= i < |Items(params)| ==> '&' !in Items(params)[i] && Items(params)[i] != []
    decreases |params.Keys|
  {
    if params.Keys == {} {
    } else {
      var k := Least(params.Keys);
      ItemsAreClean(params - {k});
    }
  }

  lemma JoinedStart(items: seq<string>)
    requires items != [] && '&' !in items[0]
    ensures Texts.Partition(Joined(items), '&') == (items[0], if |items| == 1 then None else Some(Joined(items[1..])))
  {
    if |items| == 1 {
      Texts.PartitionNowhere(items[0], '&');
    } else {
      Texts.PartitionAt(items[0], '&', Joined(items[1..]));
    }
  }

  lemma {:induction false} JoinedIsInjective(a: seq<string>, b: seq<string>)
    requires forall i :: 0 <= i < |a| ==> '&' !in a[i] && a[i] != []
    requires forall i :: 0 <= i < |b| ==> '&' !in b[i] && b[i] != []
    requires Joined(a) == Joined(b)
    ensures a == b
    decreases |a|
  {
    if a == [] || b == [] {
      JoinedIsEmpty(a);
      JoinedIsEmpty(b);
    } else {
      JoinedStart(a);
      JoinedStart(b);
      hide Joined;
      assert a == [a[0]] + a[1..] && b == [b[0]] + b[1..];
      if |a| > 1 {
        JoinedIsInjective(a[1..], b[1..]);
      }
    }
  }

  lemma JoinedIsEmpty(items: seq<string>)
    requires forall i :: 0 <= i < |items| ==> items[i] != []
    ensures Joined(items) == [] <==> items == []
  {
  }

  lemma {:induction false} ItemsAreInjective(p: Params, q: Params)
    requires Clean(p) && Clean(q) && Items(p) == Items(q)
    ensures p == q
    decreases |p.Keys|
  {
    hide Least;
    assert |p.Keys| == |q.Keys|;
    if p.Keys == {} {
      assert q.Keys == {};
      assert p == map[] && q == map[];
    } else {
      var k, l := Least(p.Keys), Least(q.Keys);
      FirstItem(p);
      FirstItem(q);
      hide Items, Least;
      KeyAndValue(k, p[k], l, q[l]);
      ItemsAreInjective(p - {k}, q - {l});
      SameRest(p, q, k);
    }
  }

  lemma SameRest(p: Params, q: Params, k: string)
    requires k in p && k in q && p[k] == q[k] && p - {k} == q - {k}
    ensures p == q
  {
    assert p == (p - {k})[k := p[k]] && q == (q - {k})[k := q[k]];
  }

  lemma KeyAndValue(k: string, v: string, l: string, w: string)
    requires '=' !in k && '=' !in l && k + ['='] + v == l + ['='] + w
    ensures k == l && v == w
  {
    Texts.PartitionAt(k, '=', v);
    Texts.PartitionAt(l, '=', w);
  }

  lemma FirstItem(p: Params)
    requires p.Keys != {}
    ensures Items(p)[0] == Least(p.Keys) + ['='] + p[Least(p.Keys)]
    ensures Items(p)[1..] == Items(p - {Least(p.Keys)})
  {
  }

  /** Equal canonical texts come from the same portal and the same parameters. */
  lemma CanonicalIsInjective(a: string, p: Params, b: string, q: Params)
    requires Clean(p) && Clean(q) && '|' !in a && '|' !in b
    requires Canonical(a, p) == Canonical(b, q)
    ensures a == b && p == q
  {
    var x, y := Joined(Items(p)), Joined(Items(q));
    Texts.PartitionAt(a, '|', x);
    Texts.PartitionAt(b, '|', y);
    assert x == y;
    hide Joined, Items;
    ItemsAreClean(p);
    ItemsAreClean(q);
    JoinedIsInjective(Items(p), Items(q));
    ItemsAreInjective(p, q);
  }

  // ----- The plan

  datatype Planner = Planner(lib: Rules.Library, capabilities: Capabilities, hash: string -> string)

  type Pair = (SearchAlert, string)

  type Key = (string, string)

  datatype PlannedQuery = PlannedQuery(portal: string, signature: string, params: Params, alerts: seq<SearchAlert>)

  function ParamsFor(planner: Planner, pair: Pair): Params {
    ParamsOf(planner.lib, planner.capabilities, pair.0, pair.1)
  }

  function KeyFor(planner: Planner, pair: Pair): Key {
    (pair.1, planner.hash(Canonical(pair.1, ParamsFor(planner, pair))))
  }

  /** The portals of one alert in order, the alert in front of each. */
  function PairsOf(alert: SearchAlert, portals: seq<string>): seq<Pair> {
    seq(|portals|, i requires 0 <= i < |portals| => (alert, portals[i]))
  }

  /** Every due alert with every portal it monitors. */
  function Pairs(due: seq<SearchAlert>): seq<Pair> {
    if due == [] then []
    else Pairs(due[..|due| - 1]) + PairsOf(due[|due| - 1], Sorted(due[|due| - 1].portalSlugs))
  }

  /** The keys of the pairs, each once, in the order of their first occurrence. */
  function DistinctKeys(planner: Planner, pairs: seq<Pair>): seq<Key> {
    if pairs == [] then []
    else
      var earlier, key := DistinctKeys(planner, pairs[..|pairs| - 1]), KeyFor(planner, pairs[|pairs| - 1]);
      if key in earlier then earlier else earlier + [key]
  }

  /** The alerts of the pairs with this key, in order. */
  function AlertsWith(planner: Planner, pairs: seq<Pair>, key: Key): seq<SearchAlert> {
    if pairs == [] then []
    else
      AlertsWith(planner, pairs[..|pairs| - 1], key)
      + if KeyFor(planner, pairs[|pairs| - 1]) == key then [pairs[|pairs| - 1].0] else []
  }

  /** The parameters of the first pair with this key. */
  function FirstParams(planner: Planner, pairs: seq<Pair>, key: Key): Params {
    if pairs == [] then map[]
    else if KeyFor(planner, pairs[0]) == key then ParamsFor(planner, pairs[0])
    else FirstParams(planner, pairs[1..], key)
  }

  function PlanOf(planner: Planner, pairs: seq<Pair>): seq<PlannedQuery> {
    var keys := DistinctKeys(planner, pairs);
    seq(|keys|, i requires 0 <= i < |keys| =>
      PlannedQuery(keys[i].0, keys[i].1, FirstParams(planner, pairs, keys[i]), AlertsWith(planner, pairs, keys[i])))
  }

  /** The dictionary of groups with its insertion order. */
  ghost predicate Grouped(
    planner: Planner, pairs: seq<Pair>, order: seq<Key>, groups: map<Key, (Params, seq<SearchAlert>)>) {
    && order == DistinctKeys(planner, pairs)
    && (forall key :: key in groups <==> key in order)
    && (forall key :: key in groups ==>
          groups[key] == (FirstParams(planner, pairs, key), AlertsWith(planner, pairs, key)))
  }

  lemma {:induction false} DistinctKeysAreTheKeys(planner: Planner, pairs: seq<Pair>)
    ensures forall pair :: pair in pairs ==> KeyFor(planner, pair) in DistinctKeys(planner, pairs)
    ensures forall key :: key in DistinctKeys(planner, pairs) ==>
              exists pair :: pair in pairs && KeyFor(planner, pair) == key
    ensures forall i, j :: 0 <= i < j < |DistinctKeys(planner, pairs)| ==>
              DistinctKeys(planner, pairs)[i] != DistinctKeys(planner, pairs)[j]
  {
    hide KeyFor;
    if pairs == [] {
    } else {
      var n := |pairs| - 1;
      DistinctKeysAreTheKeys(planner, pairs[..n]);
      assert forall pair :: pair in pairs <==> pair in pairs[..n] || pair == pairs[n];
    }
  }

  lemma {:induction false} FirstParamsOfLonger(planner: Planner, pairs: seq<Pair>, pair: Pair, key: Key)
    ensures FirstParams(planner, pairs + [pair], key)
            == if exists p :: p in pairs && KeyFor(planner, p) == key then FirstParams(planner, pairs, key)
               else if KeyFor(planner, pair) == key then ParamsFor(planner, pair) else map[]
  {
    hide KeyFor, ParamsFor;
    if pairs == [] {
    } else {
      assert (pairs + [pair])[1..] == pairs[1..] + [pair];
      FirstParamsOfLonger(planner, pairs[1..], pair, key);
      assert forall p :: p in pairs <==> p == pairs[0] || p in pairs[1..];
    }
  }

  lemma GroupedStep(
    planner: Planner, pairs: seq<Pair>, order: seq<Key>, groups: map<Key, (Params, seq<SearchAlert>)>, pair: Pair)
    requires Grouped(planner, pairs, order, groups)
    ensures var key := KeyFor(planner, pair);
            var known := key in groups;
            var started := if known then groups else groups[key := (ParamsFor(planner, pair), [])];
            Grouped(planner, pairs + [pair], if known then order else order + [key],
                    started[key := (started[key].0, started[key].1 + [pair.0])])
  {
    hide KeyFor, ParamsFor;
    var key, longer := KeyFor(planner, pair), pairs + [pair];
    assert longer[..|longer| - 1] == pairs;
    DistinctKeysAreTheKeys(planner, pairs);
    AbsentKeyHasNoAlerts(planner, pairs, key);
    var started := if key in groups then groups else groups[key := (ParamsFor(planner, pair), [])];
    var after := started[key := (started[key].0, started[key].1 + [pair.0])];
    forall k | k in after
      ensures after[k] == (FirstParams(planner, longer, k), AlertsWith(planner, longer, k))
    {
      FirstParamsOfLonger(planner, pairs, pair, k);
      if k != key {
        assert AlertsWith(planner, pairs, k) + [] == AlertsWith(planner, pairs, k);
      } else if key !in groups {
        assert AlertsWith(planner, longer, key) == [] + [pair.0];
      }
    }
  }

  lemma {:induction false} AbsentKeyHasNoAlerts(planner: Planner, pairs: seq<Pair>, key: Key)
    ensures (forall pair :: pair in pairs ==> KeyFor(planner, pair) != key) ==> AlertsWith(planner, pairs, key) == []
  {
    hide KeyFor;
    if pairs == [] {
    } else {
      AbsentKeyHasNoAlerts(planner, pairs[..|pairs| - 1], key);
    }
  }

  /** `SearchPlanner.plan`. */
  method Plan(planner: Planner, due: seq<SearchAlert>) returns (plan: seq<PlannedQuery>)
    requires forall alert :: alert in due ==> alert.conditions.Group? && WellFormed(alert.conditions)
    ensures plan == PlanOf(planner, Pairs(due))
  {
    hide KeyFor, ParamsFor, ParamsOf, Grouped, PlanOf, DistinctKeys, Sorted, WellFormed;
    var order: seq<Key> := [];
    var groups: map<Key, (Params, seq<SearchAlert>)> := map[];
    GroupedEmpty(planner);
    for i := 0 to |due|
      invariant Grouped(planner, Pairs(due[..i]), order, groups)
    {
      var alert, portals := due[i], Sorted(due[i].portalSlugs);
      assert alert in due;
      assert Pairs(due[..i]) + PairsOf(alert, portals[..0]) == Pairs(due[..i]);
      for j := 0 to |portals|
        invariant Grouped(planner, Pairs(due[..i]) + PairsOf(alert, portals[..j]), order, groups)
      {
        ghost var pairs, pair := Pairs(due[..i]) + PairsOf(alert, portals[..j]), (alert, portals[j]);
        GroupedStep(planner, pairs, order, groups, pair);
        var params := PushableParams(planner.lib, planner.capabilities, alert, portals[j]);
        var key := (portals[j], planner.hash(Canonical(portals[j], params)));
        KeyIs(planner, pair, params);
        if key !in groups {
          groups := groups[key := (params, [])];
          order := order + [key];
        }
        groups := groups[key := (groups[key].0, groups[key].1 + [alert])];
        assert pairs + [pair] == Pairs(due[..i]) + PairsOf(alert, portals[..j + 1]);
      }
      assert portals[..|portals|] == portals;
      PairsStep(due, i);
    }
    assert due[..|due|] == due;
    plan := [];
    for k := 0 to |order|
      invariant |plan| == k
      invariant forall i :: 0 <= i < k ==> plan[i] == Entry(planner, Pairs(due), order[i])
    {
      GroupEntry(planner, Pairs(due), order, groups, k);
      var (params, alerts) := groups[order[k]];
      plan := plan + [PlannedQuery(order[k].0, order[k].1, params, alerts)];
    }
    PlanEntries(planner, Pairs(due), order, groups, plan);
  }

  ghost function Entry(planner: Planner, pairs: seq<Pair>, key: Key): PlannedQuery {
    PlannedQuery(key.0, key.1, FirstParams(planner, pairs, key), AlertsWith(planner, pairs, key))
  }

  lemma GroupedEmpty(planner: Planner)
    ensures Grouped(planner, Pairs([]), [], map[])
  {
  }

  lemma KeyIs(planner: Planner, pair: Pair, params: Params)
    requires params == ParamsOf(planner.lib, planner.capabilities, pair.0, pair.1)
    ensures params == ParamsFor(planner, pair)
    ensures KeyFor(planner, pair) == (pair.1, planner.hash(Canonical(pair.1, params)))
  {
  }

  lemma PairsStep(due: seq<SearchAlert>, i: nat)
    requires i < |due|
    ensures Pairs(due[..i + 1]) == Pairs(due[..i]) + PairsOf(due[i], Sorted(due[i].portalSlugs))
  {
    assert due[..i + 1][..i] == due[..i];
  }

  lemma GroupEntry(
    planner: Planner, pairs: seq<Pair>, order: seq<Key>, groups: map<Key, (Params, seq<SearchAlert>)>, k: nat)
    requires Grouped(planner, pairs, order, groups) && k < |order|
    ensures order[k] in groups
    ensures PlannedQuery(order[k].0, order[k].1, groups[order[k]].0, groups[order[k]].1)
            == Entry(planner, pairs, order[k])
  {
  }

  lemma PlanEntries(
    planner: Planner, pairs: seq<Pair>, order: seq<Key>, groups: map<Key, (Params, seq<SearchAlert>)>,
    plan: seq<PlannedQuery>)
    requires Grouped(planner, pairs, order, groups) && |plan| == |order|
    requires forall i :: 0 <= i < |order| ==> plan[i] == Entry(planner, pairs, order[i])
    ensures plan == PlanOf(planner, pairs)
  {
  }

  // ----- The plan is a minimal partition

  ghost predicate Injective(hash: string -> string) {
    forall a, b :: hash(a) == hash(b) ==> a == b
  }

  /** No separator occurs inside a slug or inside a pushed text. */
  ghost predicate Separable(planner: Planner, pair: Pair) {
    '|' !in pair.1 && forall param :: param in ParamsFor(planner, pair) ==> '&' !in ParamsFor(planner, pair)[param]
  }

  /** Portal and parameters: what a query asks for. */
  function Shape(planner: Planner, pair: Pair): (string, Params) {
    (pair.1, ParamsFor(planner, pair))
  }

  lemma ParamNamesAreClean(planner: Planner, pair: Pair)
    requires Separable(planner, pair)
    ensures Clean(ParamsFor(planner, pair))
  {
    hide Pushed, LastWrite;
    ParamNames(planner, pair);
    NamesAreClean();
    hide PARAMS, ParamsFor;
  }

  lemma ParamNames(planner: Planner, pair: Pair)
    ensures forall param :: param in ParamsFor(planner, pair) ==> param in PARAMS
  {
    hide LastWrite, PARAMS;
  }

  lemma NamesAreClean()
    ensures forall param :: param in PARAMS ==> '=' !in param && '&' !in param
  {
  }

  /** The signature alone decides portal and parameters, and they decide it. */
  lemma SignatureDecidesShape(planner: Planner, p: Pair, q: Pair)
    requires Injective(planner.hash) && Separable(planner, p) && Separable(planner, q)
    ensures KeyFor(planner, p).1 == KeyFor(planner, q).1 <==> Shape(planner, p) == Shape(planner, q)
    ensures KeyFor(planner, p) == KeyFor(planner, q) <==> Shape(planner, p) == Shape(planner, q)
  {
    ParamNamesAreClean(planner, p);
    ParamNamesAreClean(planner, q);
    hide Canonical, ParamsFor, Clean;
    if KeyFor(planner, p).1 == KeyFor(planner, q).1 {
      CanonicalIsInjective(p.1, ParamsFor(planner, p), q.1, ParamsFor(planner, q));
    }
  }

  /** The last text that the conditions of an alert write for a parameter of a portal. */
  function LastWriteOf(planner: Planner, alert: SearchAlert, portal: string, param: string): Option<string>
    requires portal in planner.capabilities && alert.conditions.Group?
  {
    LastWrite(planner.lib, planner.capabilities[portal], alert.conditions.children, param)
  }

  /** Two alerts share the scrape of a portal exactly when their conditions end on the same last writes. */
  lemma AlertsShareAQueryIff(planner: Planner, a: SearchAlert, b: SearchAlert, portal: string)
    requires Injective(planner.hash) && Separable(planner, (a, portal)) && Separable(planner, (b, portal))
    requires portal in planner.capabilities && a.conditions.Group? && b.conditions.Group?
    requires a.conditions.combinator == ALL && b.conditions.combinator == ALL
    ensures KeyFor(planner, (a, portal)) == KeyFor(planner, (b, portal))
            <==> forall param :: param in PARAMS ==>
                   LastWriteOf(planner, a, portal, param) == LastWriteOf(planner, b, portal, param)
  {
    hide Separable, Canonical, Pushed, LastWrite;
    SignatureDecidesShape(planner, (a, portal), (b, portal));
    SamePushedIffSameLastWrites(planner.lib, planner.capabilities[portal], a.conditions.children,
      b.conditions.children);
  }

  lemma PairsOfOne(owner: SearchAlert, portals: seq<string>, alert: SearchAlert, portal: string)
    ensures (alert, portal) in PairsOf(owner, portals) <==> alert == owner && portal in portals
  {
    var pairs := PairsOf(owner, portals);
    assert forall i :: 0 <= i < |pairs| ==> pairs[i] == (owner, portals[i]);
  }

  lemma {:induction false} PairsAreSubscriptions(due: seq<SearchAlert>, alert: SearchAlert, portal: string)
    ensures (alert, portal) in Pairs(due) <==> alert in due && portal in alert.portalSlugs
  {
    if due == [] {
    } else {
      var n := |due| - 1;
      PairsAreSubscriptions(due[..n], alert, portal);
      PairsOfOne(due[n], Sorted(due[n].portalSlugs), alert, portal);
      hide PairsOf, Sorted;
      assert alert in due <==> alert in due[..n] || alert == due[n];
    }
  }

  lemma {:induction false} AlertsWithMembers(planner: Planner, pairs: seq<Pair>, key: Key, alert: SearchAlert)
    ensures alert in AlertsWith(planner, pairs, key) <==>
            exists pair :: pair in pairs && pair.0 == alert && KeyFor(planner, pair) == key
  {
    hide KeyFor;
    if pairs == [] {
    } else {
      var n := |pairs| - 1;
      AlertsWithMembers(planner, pairs[..n], key, alert);
      assert forall pair :: pair in pairs <==> pair in pairs[..n] || pair == pairs[n];
    }
  }

  lemma {:induction false} FirstParamsHaveTheKey(planner: Planner, pairs: seq<Pair>, key: Key)
    requires exists pair :: pair in pairs && KeyFor(planner, pair) == key
    ensures exists pair ::
              && pair in pairs && KeyFor(planner, pair) == key
              && ParamsFor(planner, pair) == FirstParams(planner, pairs, key)
  {
    hide KeyFor, ParamsFor;
    if KeyFor(planner, pairs[0]) != key {
      assert forall pair :: pair in pairs <==> pair == pairs[0] || pair in pairs[1..];
      FirstParamsHaveTheKey(planner, pairs[1..], key);
    } else {
      assert pairs[0] in pairs;
    }
  }

  ghost function Shapes(planner: Planner, pairs: seq<Pair>): set<(string, Params)> {
    set pair | pair in pairs :: Shape(planner, pair)
  }

  lemma ShapesGrow(planner: Planner, pairs: seq<Pair>)
    requires pairs != []
    ensures var n := |pairs| - 1;
            Shapes(planner, pairs) == Shapes(planner, pairs[..n]) + {Shape(planner, pairs[n])}
  {
    hide Shape;
    assert forall pair :: pair in pairs <==> pair in pairs[..|pairs| - 1] || pair == pairs[|pairs| - 1];
  }

  lemma {:induction false} AsManyKeysAsShapes(planner: Planner, pairs: seq<Pair>)
    requires Injective(planner.hash) && (forall pair :: pair in pairs ==> Separable(planner, pair))
    ensures |DistinctKeys(planner, pairs)| == |Shapes(planner, pairs)|
  {
    hide KeyFor, Shape, Separable;
    if pairs == [] {
      assert Shapes(planner, pairs) == {};
    } else {
      var n := |pairs| - 1;
      var earlier := pairs[..n];
      AsManyKeysAsShapes(planner, earlier);
      ShapesGrow(planner, pairs);
      NewKeyIffNewShape(planner, earlier, pairs[n]);
      hide Shapes;
    }
  }

  lemma NewKeyIffNewShape(planner: Planner, pairs: seq<Pair>, pair: Pair)
    requires Injective(planner.hash) && Separable(planner, pair) && (forall p :: p in pairs ==> Separable(planner, p))
    ensures KeyFor(planner, pair) in DistinctKeys(planner, pairs) <==> Shape(planner, pair) in Shapes(planner, pairs)
  {
    DistinctKeysAreTheKeys(planner, pairs);
    hide KeyFor, Shape, Separable, DistinctKeys;
    if KeyFor(planner, pair) in DistinctKeys(planner, pairs) {
      var p :| p in pairs && KeyFor(planner, p) == KeyFor(planner, pair);
      SignatureDecidesShape(planner, p, pair);
    }
    if Shape(planner, pair) in Shapes(planner, pairs) {
      var p :| p in pairs && Shape(planner, p) == Shape(planner, pair);
      SignatureDecidesShape(planner, p, pair);
    }
  }

  /** One planned query: its signature, and exactly the subscriptions that ask for it. */
  lemma QueryServesItsShape(planner: Planner, due: seq<SearchAlert>, i: nat, alert: SearchAlert)
    requires Injective(planner.hash) && (forall pair :: pair in Pairs(due) ==> Separable(planner, pair))
    requires i < |PlanOf(planner, Pairs(due))|
    ensures var q := PlanOf(planner, Pairs(due))[i];
            && q.signature == planner.hash(Canonical(q.portal, q.params))
            && (alert in q.alerts <==>
                  alert in due && q.portal in alert.portalSlugs && ParamsFor(planner, (alert, q.portal)) == q.params)
  {
    var pairs := Pairs(due);
    var key := DistinctKeys(planner, pairs)[i];
    DistinctKeysAreTheKeys(planner, pairs);
    assert key in DistinctKeys(planner, pairs);
    FirstParamsHaveTheKey(planner, pairs, key);
    hide DistinctKeys, Pairs, Separable, ParamsFor, Canonical;
    var first :| first in pairs && KeyFor(planner, first) == key
                 && ParamsFor(planner, first) == FirstParams(planner, pairs, key);
    AlertsWithMembers(planner, pairs, key, alert);
    var own := (alert, key.0);
    PairsAreSubscriptions(due, alert, key.0);
    if own in pairs {
      SignatureDecidesShape(planner, first, own);
    }
  }

  /**
  The plan is a minimal partition: every due alert lands, for every portal it monitors, in exactly one
  query, whose parameters are its own; queries have different signatures; and there are as many of
  them as there are different (portal, parameters) pairs.
  */
  lemma PlanIsAMinimalPartition(planner: Planner, due: seq<SearchAlert>)
    requires Injective(planner.hash) && (forall pair :: pair in Pairs(due) ==> Separable(planner, pair))
    ensures var plan := PlanOf(planner, Pairs(due));
            && (forall i, j :: 0 <= i < j < |plan| ==> plan[i].signature != plan[j].signature)
            && |plan| == |Shapes(planner, Pairs(due))|
    ensures forall alert, portal :: alert in due && portal in alert.portalSlugs ==>
              exists i :: 0 <= i < |PlanOf(planner, Pairs(due))| && Serves(planner, due, i, alert, portal)
    ensures forall alert, portal, i, j
              | 0 <= i < |PlanOf(planner, Pairs(due))| && 0 <= j < |PlanOf(planner, Pairs(due))| ::
              Serves(planner, due, i, alert, portal) && Serves(planner, due, j, alert, portal) ==> i == j
  {
    var pairs := Pairs(due);
    AsManyKeysAsShapes(planner, pairs);
    DifferentSignatures(planner, pairs);
    hide ParamsFor, Separable, Pairs;
    forall alert, portal | alert in due && portal in alert.portalSlugs
      ensures exists i :: 0 <= i < |PlanOf(planner, pairs)| && Serves(planner, due, i, alert, portal)
    {
      SubscriptionIsServed(planner, due, alert, portal);
    }
    forall alert, portal, i, j | 0 <= i < |PlanOf(planner, pairs)| && 0 <= j < |PlanOf(planner, pairs)|
        && Serves(planner, due, i, alert, portal) && Serves(planner, due, j, alert, portal)
      ensures i == j
    {
      QueryServesItsShape(planner, due, i, alert);
      QueryServesItsShape(planner, due, j, alert);
    }
  }

  /** Query i carries the alert for this portal. */
  ghost predicate Serves(planner: Planner, due: seq<SearchAlert>, i: nat, alert: SearchAlert, portal: string)
    requires i < |PlanOf(planner, Pairs(due))|
  {
    var q := PlanOf(planner, Pairs(due))[i];
    q.portal == portal && q.params == ParamsFor(planner, (alert, portal)) && alert in q.alerts
  }

  lemma DifferentSignatures(planner: Planner, pairs: seq<Pair>)
    requires Injective(planner.hash) && (forall pair :: pair in pairs ==> Separable(planner, pair))
    ensures var plan := PlanOf(planner, pairs);
            forall i, j :: 0 <= i < j < |plan| ==> plan[i].signature != plan[j].signature
  {
    var keys := DistinctKeys(planner, pairs);
    DistinctKeysAreTheKeys(planner, pairs);
    hide DistinctKeys, KeyFor, Separable, Shape;
    forall i, j | 0 <= i < j < |keys|
      ensures keys[i].1 != keys[j].1
    {
      assert keys[i] in keys && keys[j] in keys;
      var p :| p in pairs && KeyFor(planner, p) == keys[i];
      var q :| q in pairs && KeyFor(planner, q) == keys[j];
      SignatureDecidesShape(planner, p, q);
    }
  }

  lemma SubscriptionIsServed(planner: Planner, due: seq<SearchAlert>, alert: SearchAlert, portal: string)
    requires Injective(planner.hash) && (forall pair :: pair in Pairs(due) ==> Separable(planner, pair))
    requires alert in due && portal in alert.portalSlugs
    ensures exists i :: 0 <= i < |PlanOf(planner, Pairs(due))| && Serves(planner, due, i, alert, portal)
  {
    var pairs, pair := Pairs(due), (alert, portal);
    PairsAreSubscriptions(due, alert, portal);
    DistinctKeysAreTheKeys(planner, pairs);
    var keys := DistinctKeys(planner, pairs);
    var i :| 0 <= i < |keys| && keys[i] == KeyFor(planner, pair);
    FirstParamsHaveTheKey(planner, pairs, keys[i]);
    hide DistinctKeys, Pairs, Separable, ParamsFor;
    var first :| first in pairs && KeyFor(planner, first) == keys[i]
                 && ParamsFor(planner, first) == FirstParams(planner, pairs, keys[i]);
    SignatureDecidesShape(planner, first, pair);
    AlertsWithMembers(planner, pairs, keys[i], alert);
    assert Serves(planner, due, i, alert, portal);
  }

  // ----- No alert is carried twice

  lemma {:induction false} CarriedPerPair(planner: Planner, pairs: seq<Pair>, key: Key, alert: SearchAlert)
    ensures multiset(AlertsWith(planner, pairs, key))[alert] <= multiset(pairs)[(alert, key.0)]
  {
    hide Canonical, ParamsFor;
    if pairs == [] {
    } else {
      var n := |pairs| - 1;
      CarriedPerPair(planner, pairs[..n], key, alert);
      assert pairs == pairs[..n] + [pairs[n]];
      assert pairs[n] == (pairs[n].0, pairs[n].1);
    }
  }

  lemma {:induction false} OnePairPerSubscription(due: seq<SearchAlert>, alert: SearchAlert, portal: string)
    ensures multiset(Pairs(due))[(alert, portal)] <= multiset(due)[alert]
  {
    hide Sorted, PairsOf;
    if due == [] {
    } else {
      var n := |due| - 1;
      OnePairPerSubscription(due[..n], alert, portal);
      OwnPairsOnce(due[n], alert, portal);
      assert due == due[..n] + [due[n]];
    }
  }

  lemma OwnPairsOnce(owner: SearchAlert, alert: SearchAlert, portal: string)
    ensures multiset(PairsOf(owner, Sorted(owner.portalSlugs)))[(alert, portal)] <= if alert == owner then 1 else 0
  {
    SortedIsAscending(owner.portalSlugs);
    hide Sorted;
    var portals := Sorted(owner.portalSlugs);
    forall i, j | 0 <= i < j < |portals|
      ensures portals[i] != portals[j]
    {
      Texts.LessIsAsymmetric(portals[i], portals[j]);
    }
    PairsOfDistinct(owner, portals, alert, portal);
  }

  lemma {:induction false} PairsOfDistinct(owner: SearchAlert, portals: seq<string>, alert: SearchAlert, portal: string)
    requires forall i, j :: 0 <= i < j < |portals| ==> portals[i] != portals[j]
    ensures multiset(PairsOf(owner, portals))[(alert, portal)]
            == if alert == owner && portal in portals then 1 else 0
  {
    if portals == [] {
    } else {
      var n := |portals| - 1;
      PairsOfDistinct(owner, portals[..n], alert, portal);
      assert PairsOf(owner, portals) == PairsOf(owner, portals[..n]) + [(owner, portals[n])];
      assert portal in portals <==> portal in portals[..n] || portal == portals[n];
      assert portals[n] !in portals[..n];
    }
  }

  /** However many of its portals and conditions an alert shares with others, a query carries it once. */
  lemma NobodyIsCarriedTwice(planner: Planner, due: seq<SearchAlert>, i: nat, alert: SearchAlert)
    requires i < |PlanOf(planner, Pairs(due))| && multiset(due)[alert] <= 1
    ensures multiset(PlanOf(planner, Pairs(due))[i].alerts)[alert] <= 1
  {
    var key := DistinctKeys(planner, Pairs(due))[i];
    CarriedPerPair(planner, Pairs(due), key, alert);
    OnePairPerSubscription(due, alert, key.0);
    hide DistinctKeys, Pairs;
  }

  // ----- First come, first served

  /** Later alerts only append: queries stand in the order in which they were first asked for, alerts as listed. */
  lemma {:induction false} LaterPairsAppend(planner: Planner, pairs: seq<Pair>, more: seq<Pair>, key: Key)
    ensures DistinctKeys(planner, pairs) <= DistinctKeys(planner, pairs + more)
    ensures AlertsWith(planner, pairs, key) <= AlertsWith(planner, pairs + more, key)
  {
    hide KeyFor;
    if more == [] {
      assert pairs + more == pairs;
    } else {
      LaterPairsAppend(planner, pairs, more[..|more| - 1], key);
      assert (pairs + more)[..|pairs + more| - 1] == pairs + more[..|more| - 1];
    }
  }

  lemma {:induction false} LaterAlertsAppend(due: seq<SearchAlert>, more: seq<SearchAlert>)
    ensures Pairs(due) <= Pairs(due + more)
  {
    hide PairsOf, Sorted;
    if more == [] {
      assert due + more == due;
    } else {
      LaterAlertsAppend(due, more[..|more| - 1]);
      assert (due + more)[..|due + more| - 1] == due + more[..|more| - 1];
    }
  }

  /**
  A plan for more alerts begins with the queries of the plan for the first ones, each with more alerts at
  its end.
  */
  lemma PlansGrow(planner: Planner, due: seq<SearchAlert>, more: seq<SearchAlert>, i: nat)
    requires i < |PlanOf(planner, Pairs(due))|
    ensures i < |PlanOf(planner, Pairs(due + more))|
    ensures var before, after := PlanOf(planner, Pairs(due))[i], PlanOf(planner, Pairs(due + more))[i];
            && before.portal == after.portal && before.signature == after.signature
            && before.alerts <= after.alerts
  {
    LaterAlertsAppend(due, more);
    var first, all := Pairs(due), Pairs(due + more);
    hide Pairs, DistinctKeys, AlertsWith;
    assert first + all[|first|..] == all;
    LaterPairsAppend(planner, first, all[|first|..], DistinctKeys(planner, first)[i]);
  }
}
