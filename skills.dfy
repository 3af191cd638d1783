/**
  The skills table and `skillCategories = [...new Set(skills.map((s) => s.category))]`:
  a `Set` keeps insertion order, so the categories come out distinct, in order of
  first appearance.
*/
module Skills {

  datatype Skill = Skill(name: string, category: string, level: nat)

  const SkillTable: seq<Skill> := [
    Skill("Node.js", "Backend", 95),
    Skill("Python", "Language", 90),
    Skill("MySQL", "Database", 85),
    Skill("MongoDB", "Database", 80),
    Skill("React", "Frontend", 88),
    Skill("Next.js", "Frontend", 85),
    Skill("TypeScript", "Language", 92),
    Skill("Docker", "DevOps", 75),
    Skill("Redis", "Database", 80),
    Skill("REST APIs", "API", 95),
    Skill("Flask", "Backend", 95)
  ]

  /** `skills.map((skill) => skill.category)`. */
  function Categories(skills: seq<Skill>): (r: seq<string>)
    ensures |r| == |skills|
    ensures forall k :: 0 <= k < |skills| ==> r[k] == skills[k].category
  {
    seq(|skills|, k requires 0 <= k < |skills| => skills[k].category)
  }

  /** The index of the first occurrence of `x` in `xs`. */
  function FirstIndex(xs: seq<string>, x: string): (k: nat)
    requires x in xs
    ensures k < |xs| && xs[k] == x && x !in xs[..k]
  {
    if xs[0] == x then 0
    else
      var k := FirstIndex(xs[1..], x);
      assert xs[..k + 1] == [xs[0]] + xs[1..][..k];
      k + 1
  }

  /** A first occurrence stays first when more elements are appended. */
  lemma FirstIndexPrefix(xs: seq<string>, y: string, x: string)
    requires x in xs
    ensures x in xs + [y] && FirstIndex(xs + [y], x) == FirstIndex(xs, x)
  {
    assert (xs + [y])[..|xs|] == xs;
  }

  /** The elements of `new Set(xs)`, in insertion order: each element is added unless already present. */
  function Distinct(xs: seq<string>): (r: seq<string>)
    ensures forall i, j :: 0 <= i < j < |r| ==> r[i] != r[j]
    ensures forall x :: x in r <==> x in xs
  {
    if xs == [] then []
    else
      var d := Distinct(xs[..|xs| - 1]);
      var last := xs[|xs| - 1];
      assert xs == xs[..|xs| - 1] + [last];
      if last in d then d else d + [last]
  }

  /** The set lists its elements in order of their first appearance in `xs`. */
  lemma {:induction false} DistinctInFirstAppearanceOrder(xs: seq<string>)
    ensures forall i, j :: 0 <= i < j < |Distinct(xs)| ==>
      FirstIndex(xs, Distinct(xs)[i]) < FirstIndex(xs, Distinct(xs)[j])
  {
    if xs != [] {
      var init := xs[..|xs| - 1];
      var last := xs[|xs| - 1];
      assert xs == init + [last];
      DistinctInFirstAppearanceOrder(init);
      forall x | x in init
        ensures x in xs && FirstIndex(xs, x) == FirstIndex(init, x)
      {
        FirstIndexPrefix(init, last, x);
      }
      if last !in Distinct(init) {
        assert FirstIndex(xs, last) == |xs| - 1;
      }
    }
  }

  /**
    The category headings of the skills section: for the page's table, six headings,
    in the order the table first names them.
  */
  function SkillCategories(): (r: seq<string>)
    ensures r == ["Backend", "Language", "Database", "Frontend", "DevOps", "API"]
  {
    var cs := Categories(SkillTable);
    CategoriesOfSkillTable();
    DistinctOfSkillCategories(cs);
    Distinct(cs)
  }

  /** Adding one more element to the set: it is appended unless already present. */
  lemma DistinctSnoc(xs: seq<string>, x: string)
    ensures Distinct(xs + [x]) == if x in Distinct(xs) then Distinct(xs) else Distinct(xs) + [x]
  {
    assert (xs + [x])[..|xs|] == xs;
  }

  /** Inserting an element that is new to the set appends it. */
  lemma DistinctAdd(xs: seq<string>, x: string, d: seq<string>)
    requires Distinct(xs) == d && x !in d
    ensures Distinct(xs + [x]) == d + [x]
  {
    DistinctSnoc(xs, x);
  }

  /** Inserting an element the set already holds (at index `k`) leaves it as it was. */
  lemma DistinctKeep(xs: seq<string>, x: string, d: seq<string>, k: nat)
    requires Distinct(xs) == d && k < |d| && d[k] == x
    ensures Distinct(xs + [x]) == d
  {
    DistinctSnoc(xs, x);
  }

  /** Inserting ["Backend", "Language"] into the empty set. */
  lemma {:induction false} SkillCategoriesChunk1(xs: seq<string>)
    requires xs == []
    ensures Distinct(xs + ["Backend", "Language"]) == ["Backend", "Language"]
  {
    DistinctAdd(xs, "Backend", []);
    DistinctAdd(xs + ["Backend"], "Language", ["Backend"]);
    assert xs + ["Backend"] + ["Language"] == xs + ["Backend", "Language"];
  }

  /** Inserting ["Database", "Database"] into a set that holds ["Backend", "Language"]. */
  lemma {:induction false} SkillCategoriesChunk2(xs: seq<string>)
    requires Distinct(xs) == ["Backend", "Language"]
    ensures Distinct(xs + ["Database", "Database"]) == ["Backend", "Language", "Database"]
  {
    DistinctAdd(xs, "Database", ["Backend", "Language"]);
    DistinctKeep(xs + ["Database"], "Database", ["Backend", "Language", "Database"], 2);
    assert xs + ["Database"] + ["Database"] == xs + ["Database", "Database"];
  }

  /** Inserting ["Frontend", "Frontend"] into a set that holds ["Backend", "Language", "Database"]. */
  lemma {:induction false} SkillCategoriesChunk3(xs: seq<string>)
    requires Distinct(xs) == ["Backend", "Language", "Database"]
    ensures Distinct(xs + ["Frontend", "Frontend"]) == ["Backend", "Language", "Database", "Frontend"]
  {
    DistinctAdd(xs, "Frontend", ["Backend", "Language", "Database"]);
    DistinctKeep(xs + ["Frontend"], "Frontend", ["Backend", "Language", "Database", "Frontend"], 3);
    assert xs + ["Frontend"] + ["Frontend"] == xs + ["Frontend", "Frontend"];
  }

  /** Inserting ["Language", "DevOps"] into a set that holds ["Backend", "Language", "Database", "Frontend"]. */
  lemma {:induction false} SkillCategoriesChunk4(xs: seq<string>)
    requires Distinct(xs) == ["Backend", "Language", "Database", "Frontend"]
    ensures Distinct(xs + ["Language", "DevOps"]) == ["Backend", "Language", "Database", "Frontend", "DevOps"]
  {
    DistinctKeep(xs, "Language", ["Backend", "Language", "Database", "Frontend"], 1);
    DistinctAdd(xs + ["Language"], "DevOps", ["Backend", "Language", "Database", "Frontend"]);
    assert xs + ["Language"] + ["DevOps"] == xs + ["Language", "DevOps"];
  }

  /** Inserting ["Database", "API", "Backend"] into a set that holds ["Backend", "Language", "Database", "Frontend", "DevOps"]. */
  lemma {:induction false} SkillCategoriesChunk5(xs: seq<string>)
    requires Distinct(xs) == ["Backend", "Language", "Database", "Frontend", "DevOps"]
    ensures Distinct(xs + ["Database", "API", "Backend"]) == ["Backend", "Language", "Database", "Frontend", "DevOps", "API"]
  {
    var ys := xs;
    DistinctKeep(ys, "Database", ["Backend", "Language", "Database", "Frontend", "DevOps"], 2);
    ys := ys + ["Database"];
    DistinctAdd(ys, "API", ["Backend", "Language", "Database", "Frontend", "DevOps"]);
    ys := ys + ["API"];
    DistinctKeep(ys, "Backend", ["Backend", "Language", "Database", "Frontend", "DevOps", "API"], 0);
    ys := ys + ["Backend"];
    assert ys == xs + ["Database", "API", "Backend"];
  }

  /** The categories of the page's table, one per skill, in table order. */
  lemma CategoriesOfSkillTable()
    ensures Categories(SkillTable) == ["Backend", "Language", "Database", "Database", "Frontend",
      "Frontend", "Language", "DevOps", "Database", "API", "Backend"]
  {
  }

  /** The first six insertions of the page's categories give four headings. */
  lemma SkillCategoriesPrefix(cs: seq<string>)
    requires cs == ["Backend", "Language", "Database", "Database", "Frontend",
      "Frontend", "Language", "DevOps", "Database", "API", "Backend"]
    ensures Distinct(cs[..6]) == ["Backend", "Language", "Database", "Frontend"]
  {
    SkillCategoriesChunk1([]);
    assert [] + ["Backend", "Language"] == cs[..2];
    SkillCategoriesChunk2(cs[..2]);
    assert cs[..2] + ["Database", "Database"] == cs[..4];
    SkillCategoriesChunk3(cs[..4]);
    assert cs[..4] + ["Frontend", "Frontend"] == cs[..6];
  }

  /** Deduplicating the categories of the page's table, one insertion at a time. */
  lemma DistinctOfSkillCategories(cs: seq<string>)
    requires cs == ["Backend", "Language", "Database", "Database", "Frontend",
      "Frontend", "Language", "DevOps", "Database", "API", "Backend"]
    ensures Distinct(cs) == ["Backend", "Language", "Database", "Frontend", "DevOps", "API"]
  {
    SkillCategoriesPrefix(cs);
    SkillCategoriesChunk4(cs[..6]);
    assert cs[..6] + ["Language", "DevOps"] == cs[..8];
    SkillCategoriesChunk5(cs[..8]);
    assert cs[..8] + ["Database", "API", "Backend"] == cs;
  }
}
