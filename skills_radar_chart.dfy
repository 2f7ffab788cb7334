/**
 * The skill processing of the radar chart
 * (src/components/SkillsRadarChart.js): the most recent record per skill
 * name, then the list sorted by level, cut to the top eight, and the
 * capitalised labels.
 */
module SkillsRadarChart {
  import opened Wrappers
  import opened Strings
  import opened Transactions

  /** `.slice(0, 8)`. */
  const MaxSkills: nat := 8

  /** What the map keeps per skill name: `{amount, createdAt}`. */
  datatype Kept = Kept(amount: nat, createdAt: int)

  /** One processed skill: `{name, level, createdAt}`. */
  datatype Skill = Skill(name: string, level: nat, createdAt: int)

  function KeptOf(t: Transaction): Kept {
    Kept(t.amount, t.createdAt)
  }

  /**
   * The skill name of a record: for a type that starts with "skill_", the
   * type with that first "skill_" replaced by nothing; none otherwise.
   */
  function SkillName(t: Transaction): (n: Option<string>)
    ensures n.Some? <==> StartsWith(t.txType, "skill_")
    ensures n.Some? ==> t.txType == "skill_" + n.value
  {
    if StartsWith(t.txType, "skill_") then
      ReplacePrefix(t.txType, "skill_");
      assert t.txType == t.txType[..6] + t.txType[6..];
      Some(ReplaceFirst(t.txType, "skill_", ""))
    else None
  }

  predicate Distinct<T(==)>(s: seq<T>) {
    forall i, j :: 0 <= i < j < |s| ==> s[i] != s[j]
  }

  /** The skill names among the first `n` records, each once, in the order they are first seen. */
  function NamesUpTo(txs: seq<Transaction>, n: nat): seq<string>
    requires n <= |txs|
  {
    if n == 0 then []
    else
      var seen := NamesUpTo(txs, n - 1);
      match SkillName(txs[n - 1])
      case Some(name) => if name in seen then seen else seen + [name]
      case None => seen
  }

  /** `NamesUpTo` lists every skill name of the first `n` records, and each only once. */
  lemma {:induction false} NamesUpToFacts(txs: seq<Transaction>, n: nat)
    requires n <= |txs|
    ensures Distinct(NamesUpTo(txs, n))
    ensures forall name :: name in NamesUpTo(txs, n) <==>
      exists j :: 0 <= j < n && SkillName(txs[j]) == Some(name)
  {
    if n > 0 {
      NamesUpToFacts(txs, n - 1);
      forall name | (exists j :: 0 <= j < n && SkillName(txs[j]) == Some(name))
        ensures name in NamesUpTo(txs, n)
      {
        var j :| 0 <= j < n && SkillName(txs[j]) == Some(name);
        if j < n - 1 {
          assert name in NamesUpTo(txs, n - 1);
        }
      }
    }
  }

  /**
   * Record `k` is the one the map holds for `name` after the first `n`
   * records: a record of that name with the latest `createdAt`, and the
   * first such one when several share that time.
   */
  ghost predicate IsKept(txs: seq<Transaction>, n: nat, name: string, k: nat)
    requires n <= |txs|
  {
    && k < n
    && SkillName(txs[k]) == Some(name)
    && (forall j :: 0 <= j < n && SkillName(txs[j]) == Some(name) ==> txs[j].createdAt <= txs[k].createdAt)
    && (forall j :: 0 <= j < k && SkillName(txs[j]) == Some(name) ==> txs[j].createdAt < txs[k].createdAt)
  }

  /** Only one record is kept per name. */
  lemma KeptUnique(txs: seq<Transaction>, n: nat, name: string, k1: nat, k2: nat)
    requires n <= |txs| && IsKept(txs, n, name, k1) && IsKept(txs, n, name, k2)
    ensures k1 == k2
  {
  }

  /**
   * The `forEach` that fills `skillsMap`: a name seen for the first time
   * is added; a known name is overwritten only by a strictly later record.
   * `order` is the map's key order (insertion order).
   */
  method CollectLatest(txs: seq<Transaction>) returns (skillsMap: map<string, Kept>, order: seq<string>)
    ensures order == NamesUpTo(txs, |txs|)
    ensures forall name :: name in skillsMap <==> name in order
    ensures forall name :: name in skillsMap ==>
      exists k: nat :: IsKept(txs, |txs|, name, k) && skillsMap[name] == KeptOf(txs[k])
  {
    skillsMap, order := map[], [];
    ghost var at: map<string, nat> := map[];
    for i := 0 to |txs|
      invariant order == NamesUpTo(txs, i)
      invariant forall name :: name in skillsMap <==> name in order
      invariant forall name :: name in skillsMap ==>
        name in at && IsKept(txs, i, name, at[name]) && skillsMap[name] == KeptOf(txs[at[name]])
    {
      var transaction := txs[i];
      NamesUpToFacts(txs, i);
      match SkillName(transaction)
      case None =>
        KeepOthers(txs, i, skillsMap, at, "");
      case Some(skillName) =>
        if skillName !in skillsMap || skillsMap[skillName].createdAt < transaction.createdAt {
          if skillName !in skillsMap {
            order := order + [skillName];
          }
          KeptAfterReplace(txs, i, skillName, if skillName in at then at[skillName] else 0, skillName in skillsMap);
          KeepOthers(txs, i, skillsMap, at, skillName);
          skillsMap := skillsMap[skillName := KeptOf(transaction)];
          at := at[skillName := i];
        } else {
          KeptAfterOlder(txs, i, skillName, at[skillName]);
          KeepOthers(txs, i, skillsMap, at, skillName);
        }
    }
  }

  /** Names other than that of record `i` keep their record when record `i` is processed. */
  lemma KeepOthers(txs: seq<Transaction>, i: nat, m: map<string, Kept>, at: map<string, nat>, except: string)
    requires i < |txs|
    requires SkillName(txs[i]).None? || SkillName(txs[i]) == Some(except)
    requires forall name :: name in m ==> name in at && IsKept(txs, i, name, at[name])
    ensures forall name :: name in m && (SkillName(txs[i]).None? || name != except) ==> IsKept(txs, i + 1, name, at[name])
  {
  }

  /** A record that is strictly later than the kept one (or the first of its name) becomes the kept one. */
  lemma KeptAfterReplace(txs: seq<Transaction>, i: nat, name: string, k: nat, known: bool)
    requires i < |txs| && SkillName(txs[i]) == Some(name)
    requires known ==> IsKept(txs, i, name, k) && txs[k].createdAt < txs[i].createdAt
    requires !known ==> forall j :: 0 <= j < i ==> SkillName(txs[j]) != Some(name)
    ensures IsKept(txs, i + 1, name, i)
  {
  }

  /** A record that is not strictly later leaves the kept one in place. */
  lemma KeptAfterOlder(txs: seq<Transaction>, i: nat, name: string, k: nat)
    requires i < |txs| && SkillName(txs[i]) == Some(name)
    requires IsKept(txs, i, name, k) && txs[i].createdAt <= txs[k].createdAt
    ensures IsKept(txs, i + 1, name, k)
  {
  }

  predicate SortedByLevel(s: seq<Skill>) {
    forall i, j :: 0 <= i < j < |s| ==> s[i].level >= s[j].level
  }

  predicate NamesDistinct(s: seq<Skill>) {
    forall i, j :: 0 <= i < j < |s| ==> s[i].name != s[j].name
  }

  /** Inserts `x` before the first element whose level is not above its own. */
  function InsertByLevel(x: Skill, s: seq<Skill>): (r: seq<Skill>)
    ensures multiset(r) == multiset(s) + multiset{x}
  {
    if s == [] || s[0].level <= x.level then [x] + s
    else
      assert s == [s[0]] + s[1..];
      [s[0]] + InsertByLevel(x, s[1..])
  }

  /**
   * `.sort((a, b) => b.level - a.level)`: non-increasing by level, stable
   * (of two skills of equal level the earlier one stays first).
   */
  function SortByLevel(s: seq<Skill>): (r: seq<Skill>)
    ensures multiset(r) == multiset(s)
  {
    if s == [] then []
    else
      assert s == [s[0]] + s[1..];
      InsertByLevel(s[0], SortByLevel(s[1..]))
  }

  lemma {:induction false} InsertKeepsSorted(x: Skill, s: seq<Skill>)
    requires SortedByLevel(s)
    ensures SortedByLevel(InsertByLevel(x, s))
  {
    if s != [] && s[0].level > x.level {
      var tail := InsertByLevel(x, s[1..]);
      InsertKeepsSorted(x, s[1..]);
      forall y | y in tail ensures y.level <= s[0].level {
        assert y in multiset(tail);
      }
      var r := [s[0]] + tail;
      forall i, j | 0 <= i < j < |r| ensures r[i].level >= r[j].level {
        if i == 0 {
          assert r[j] in tail;
        }
      }
    }
  }

  lemma {:induction false} InsertKeepsNamesDistinct(x: Skill, s: seq<Skill>)
    requires NamesDistinct(s)
    requires forall y :: y in s ==> y.name != x.name
    ensures NamesDistinct(InsertByLevel(x, s))
  {
    if s != [] && s[0].level > x.level {
      var tail := InsertByLevel(x, s[1..]);
      InsertKeepsNamesDistinct(x, s[1..]);
      forall y | y in tail ensures y.name != s[0].name {
        assert y in multiset(tail);
        if y != x {
          var j :| 0 <= j < |s[1..]| && s[1..][j] == y;
          assert s[j + 1] == y;
        }
      }
      var r := [s[0]] + tail;
      forall i, j | 0 <= i < j < |r| ensures r[i].name != r[j].name {
        if i == 0 {
          assert r[j] in tail;
        }
      }
    }
  }

  /** The sorted list is non-increasing by level and keeps the skills' names distinct. */
  lemma {:induction false} SortByLevelCorrect(s: seq<Skill>)
    ensures SortedByLevel(SortByLevel(s))
    ensures NamesDistinct(s) ==> NamesDistinct(SortByLevel(s))
  {
    if s != [] {
      var rest := SortByLevel(s[1..]);
      SortByLevelCorrect(s[1..]);
      InsertKeepsSorted(s[0], rest);
      if NamesDistinct(s) {
        forall y | y in rest ensures y.name != s[0].name {
          assert y in multiset(rest);
          var j :| 0 <= j < |s[1..]| && s[1..][j] == y;
          assert s[j + 1] == y;
        }
        InsertKeepsNamesDistinct(s[0], rest);
      }
    }
  }

  /** `Object.entries(skillsMap).map(([name, data]) => ({name, level: data.amount, createdAt: data.createdAt}))`. */
  function ToSkills(order: seq<string>, skillsMap: map<string, Kept>): (r: seq<Skill>)
    requires forall name :: name in order ==> name in skillsMap
    ensures |r| == |order|
    ensures forall p :: 0 <= p < |r| ==>
      r[p] == Skill(order[p], skillsMap[order[p]].amount, skillsMap[order[p]].createdAt)
  {
    if order == [] then []
    else
      var name := order[0];
      [Skill(name, skillsMap[name].amount, skillsMap[name].createdAt)] + ToSkills(order[1..], skillsMap)
  }

  function Min(a: nat, b: nat): nat {
    if a <= b then a else b
  }

  /** Skill `s` carries the amount and time of the record kept for its name. */
  ghost predicate FromKept(txs: seq<Transaction>, s: Skill) {
    exists k: nat :: IsKept(txs, |txs|, s.name, k) && s.level == txs[k].amount && s.createdAt == txs[k].createdAt
  }

  /** No skill in `skills` has name `name`. */
  predicate Omits(skills: seq<Skill>, name: string) {
    forall p :: 0 <= p < |skills| ==> skills[p].name != name
  }

  /** `processSkillsData`. */
  method ProcessSkillsData(transactions: Option<seq<Transaction>>) returns (skills: seq<Skill>)
    ensures transactions.None? || transactions.value == [] ==> skills == []
    ensures transactions.Some? ==>
      var txs := transactions.value;
      && |skills| == Min(MaxSkills, |NamesUpTo(txs, |txs|)|)
      && NamesDistinct(skills)
      && SortedByLevel(skills)
      && (forall p :: 0 <= p < |skills| ==> FromKept(txs, skills[p]))
      && (forall name, k: nat :: IsKept(txs, |txs|, name, k) && Omits(skills, name) ==>
            forall p :: 0 <= p < |skills| ==> txs[k].amount <= skills[p].level)
  {
    if transactions.None? || |transactions.value| == 0 {
      return [];
    }
    var txs := transactions.value;
    var skillsMap, order := CollectLatest(txs);
    NamesUpToFacts(txs, |txs|);
    // `order` is `Object.keys(skillsMap)`
    if |order| == 0 {
      return [];
    }
    var entries := ToSkills(order, skillsMap);
    EntriesFromKept(txs, skillsMap, order);
    var sorted := SortByLevel(entries);
    SortByLevelCorrect(entries);
    skills := if |sorted| <= MaxSkills then sorted else sorted[..MaxSkills];
    TopShape(entries, sorted, skills);
    TopFromKept(txs, entries, skills);
    DroppedBound(txs, skillsMap, order, sorted, skills);
  }

  /** The entries built from the map have distinct names, each carrying its kept record. */
  lemma EntriesFromKept(txs: seq<Transaction>, skillsMap: map<string, Kept>, order: seq<string>)
    requires order == NamesUpTo(txs, |txs|)
    requires forall n :: n in skillsMap <==> n in order
    requires forall n :: n in skillsMap ==> exists k: nat :: IsKept(txs, |txs|, n, k) && skillsMap[n] == KeptOf(txs[k])
    ensures NamesDistinct(ToSkills(order, skillsMap))
    ensures forall q :: 0 <= q < |order| ==> FromKept(txs, ToSkills(order, skillsMap)[q])
  {
    var entries := ToSkills(order, skillsMap);
    NamesUpToFacts(txs, |txs|);
    forall q | 0 <= q < |entries| ensures FromKept(txs, entries[q]) {
      assert order[q] in skillsMap;
    }
  }

  /** The name of a kept record is among the skill names. */
  lemma KeptNameListed(txs: seq<Transaction>, name: string, k: nat)
    requires k < |txs| && SkillName(txs[k]) == Some(name)
    ensures name in NamesUpTo(txs, |txs|)
  {
    NamesUpToFacts(txs, |txs|);
  }

  /** The map holds the kept record of every name it has. */
  lemma KeptIsMapped(txs: seq<Transaction>, skillsMap: map<string, Kept>, name: string, k: nat)
    requires forall n :: n in skillsMap ==> exists k: nat :: IsKept(txs, |txs|, n, k) && skillsMap[n] == KeptOf(txs[k])
    requires name in skillsMap && IsKept(txs, |txs|, name, k)
    ensures skillsMap[name] == KeptOf(txs[k])
  {
    var k': nat :| IsKept(txs, |txs|, name, k') && skillsMap[name] == KeptOf(txs[k']);
    KeptUnique(txs, |txs|, name, k, k');
  }

  /** A name of the map appears among the entries with its record. */
  lemma MappedHasEntry(skillsMap: map<string, Kept>, order: seq<string>, name: string)
    requires forall n :: n in order ==> n in skillsMap
    requires name in order
    ensures Skill(name, skillsMap[name].amount, skillsMap[name].createdAt) in ToSkills(order, skillsMap)
  {
    var q :| 0 <= q < |order| && order[q] == name;
    assert ToSkills(order, skillsMap)[q] == Skill(name, skillsMap[name].amount, skillsMap[name].createdAt);
  }

  /** The shown skills come from the entries, so they carry kept records. */
  lemma TopFromKept(txs: seq<Transaction>, entries: seq<Skill>, skills: seq<Skill>)
    requires forall q :: 0 <= q < |entries| ==> FromKept(txs, entries[q])
    requires forall p :: 0 <= p < |skills| ==> skills[p] in multiset(entries)
    ensures forall p :: 0 <= p < |skills| ==> FromKept(txs, skills[p])
  {
    forall p | 0 <= p < |skills| ensures FromKept(txs, skills[p]) {
      assert skills[p] in entries;
      var q :| 0 <= q < |entries| && entries[q] == skills[p];
    }
  }

  /** A kept record whose name is not shown has an amount no higher than any shown level. */
  lemma DroppedBound(txs: seq<Transaction>, skillsMap: map<string, Kept>, order: seq<string>, sorted: seq<Skill>, skills: seq<Skill>)
    requires order == NamesUpTo(txs, |txs|)
    requires forall n :: n in skillsMap <==> n in order
    requires forall n :: n in skillsMap ==> exists k: nat :: IsKept(txs, |txs|, n, k) && skillsMap[n] == KeptOf(txs[k])
    requires multiset(sorted) == multiset(ToSkills(order, skillsMap)) && SortedByLevel(sorted)
    requires skills == if |sorted| <= MaxSkills then sorted else sorted[..MaxSkills]
    ensures forall name, k: nat :: IsKept(txs, |txs|, name, k) && Omits(skills, name) ==>
      forall p :: 0 <= p < |skills| ==> txs[k].amount <= skills[p].level
  {
    var entries := ToSkills(order, skillsMap);
    forall name, k: nat | IsKept(txs, |txs|, name, k) && Omits(skills, name)
      ensures forall p :: 0 <= p < |skills| ==> txs[k].amount <= skills[p].level
    {
      KeptNameListed(txs, name, k);
      KeptIsMapped(txs, skillsMap, name, k);
      MappedHasEntry(skillsMap, order, name);
      DroppedNotAbove(entries, sorted, skills, Skill(name, txs[k].amount, txs[k].createdAt));
    }
  }

  /** The output is at most eight skills, as many as there are entries when there are fewer. */
  lemma TopShape(entries: seq<Skill>, sorted: seq<Skill>, skills: seq<Skill>)
    requires multiset(sorted) == multiset(entries) && SortedByLevel(sorted) && NamesDistinct(sorted)
    requires skills == if |sorted| <= MaxSkills then sorted else sorted[..MaxSkills]
    ensures |skills| == Min(MaxSkills, |entries|)
    ensures NamesDistinct(skills) && SortedByLevel(skills)
    ensures forall p :: 0 <= p < |skills| ==> skills[p] in multiset(entries)
  {
    assert |sorted| == |entries| by {
      assert |multiset(sorted)| == |multiset(entries)|;
    }
    forall p | 0 <= p < |skills| ensures skills[p] in multiset(entries) {
      assert skills[p] == sorted[p];
      assert sorted[p] in multiset(sorted);
    }
  }

  /** An entry left out of the top of the sorted list is no higher than any shown skill. */
  lemma DroppedNotAbove(entries: seq<Skill>, sorted: seq<Skill>, skills: seq<Skill>, e: Skill)
    requires multiset(sorted) == multiset(entries) && SortedByLevel(sorted)
    requires skills == if |sorted| <= MaxSkills then sorted else sorted[..MaxSkills]
    requires e in entries && Omits(skills, e.name)
    ensures forall p :: 0 <= p < |skills| ==> e.level <= skills[p].level
  {
    assert e in multiset(sorted);
    var i :| 0 <= i < |sorted| && sorted[i] == e;
    if i < |skills| {
      assert false;
    }
    forall p | 0 <= p < |skills| ensures e.level <= skills[p].level {
      assert skills[p] == sorted[p];
    }
  }

  /** `name.charAt(0).toUpperCase() + name.slice(1)`. */
  function Capitalize(name: string): (text: string)
    ensures |text| == |name|
    ensures name != [] ==> text[0] == ToUpper(name[0]) && text[1..] == name[1..]
  {
    if name == [] then [] else [ToUpper(name[0])] + name[1..]
  }

  /** Capitalising a label again changes nothing. */
  lemma CapitalizeIdempotent(name: string)
    ensures Capitalize(Capitalize(name)) == Capitalize(name)
  {
  }

  /** The chart labels, one per processed skill, in the same order. */
  function Labels(skills: seq<Skill>): (labels: seq<string>)
    ensures |labels| == |skills|
    ensures forall p :: 0 <= p < |skills| ==> labels[p] == Capitalize(skills[p].name)
  {
    if skills == [] then [] else [Capitalize(skills[0].name)] + Labels(skills[1..])
  }
}
