/**
 * The skills grid (App.tsx): one column per category name, each listing the
 * skills whose category equals that name. Because the five names are
 * exactly the values a skill's category can take (types.ts), the columns
 * partition the skill list.
 */
module Skills {

  /** `Skill.category` */
  datatype Category = Programming | Frontend | Backend | DevOpsCloud | Languages

  datatype Skill = Skill(name: string, category: Category)

  /** The string a category is written as. */
  function CategoryName(c: Category): string {
    match c
    case Programming => "Programming"
    case Frontend => "Frontend"
    case Backend => "Backend"
    case DevOpsCloud => "DevOps & Cloud"
    case Languages => "Languages"
  }

  /** The column headings, in display order. */
  const Columns: seq<string> := ["Programming", "Frontend", "Backend", "DevOps & Cloud", "Languages"]

  /** The site's skills, in listing order. */
  const AllSkills: seq<Skill> := [
    Skill("Python", Programming),
    Skill("Java", Programming),
    Skill("JavaScript", Programming),
    Skill("LaTeX", Programming),
    Skill("React", Frontend),
    Skill("HTML5", Frontend),
    Skill("Express", Backend),
    Skill("REST API", Backend),
    Skill("AWS", DevOpsCloud),
    Skill("Docker", DevOpsCloud),
    Skill("Kubernetes", DevOpsCloud),
    Skill("English", Languages),
    Skill("Setswana", Languages),
    Skill("French", Languages)
  ]

  /** `skills.filter(s => s.category === column)` */
  function InColumn(skills: seq<Skill>, column: string): (r: seq<Skill>)
    ensures forall x :: x in r ==> x in skills && CategoryName(x.category) == column
    decreases |skills|
  {
    if skills == [] then []
    else if CategoryName(skills[0].category) == column then [skills[0]] + InColumn(skills[1..], column)
    else InColumn(skills[1..], column)
  }

  /** All skills shown in the five columns, counted with repetition. */
  function Grid(skills: seq<Skill>): multiset<Skill> {
    multiset(InColumn(skills, Columns[0])) + multiset(InColumn(skills, Columns[1])) +
    multiset(InColumn(skills, Columns[2])) + multiset(InColumn(skills, Columns[3])) +
    multiset(InColumn(skills, Columns[4]))
  }

  /** Each category's name heads exactly one column. */
  lemma CategoryHasOneColumn(c: Category)
    ensures exists k :: 0 <= k < |Columns| && Columns[k] == CategoryName(c)
    ensures forall k, l :: 0 <= k < l < |Columns| ==> Columns[k] != Columns[l]
  {
    match c
    case Programming => assert Columns[0] == CategoryName(c);
    case Frontend => assert Columns[1] == CategoryName(c);
    case Backend => assert Columns[2] == CategoryName(c);
    case DevOpsCloud => assert Columns[3] == CategoryName(c);
    case Languages => assert Columns[4] == CategoryName(c);
  }

  /** Every listed skill appears in the column headed by its category's name. */
  lemma {:induction false} ColumnKeepsMembers(skills: seq<Skill>, x: Skill)
    requires x in skills
    ensures x in InColumn(skills, CategoryName(x.category))
    decreases |skills|
  {
    if skills[0] != x {
      ColumnKeepsMembers(skills[1..], x);
    }
  }

  /**
   * The grid shows every skill exactly as often as it is listed: the five
   * columns together are a permutation of the skill list.
   */
  lemma {:induction false} GridPartitionsSkills(skills: seq<Skill>)
    ensures Grid(skills) == multiset(skills)
    decreases |skills|
  {
    if skills == [] {
    } else {
      var x, rest := skills[0], skills[1..];
      GridPartitionsSkills(rest);
      assert skills == [x] + rest;
      // one case per category: x lands in exactly the column its name heads
      match x.category
      case Programming =>
      case Frontend =>
      case Backend =>
      case DevOpsCloud =>
      case Languages =>
    }
  }

  /** The site's grid shows each of its fourteen skills exactly once. */
  lemma SiteGridShowsEachSkillOnce()
    ensures Grid(AllSkills) == multiset(AllSkills)
    ensures |AllSkills| == 14
    ensures NamesDistinct(AllSkills)
  {
    GridPartitionsSkills(AllSkills);
    SiteSkillNamesDistinct();
  }

  /** No two entries of `skills` share a name. */
  predicate NamesDistinct(skills: seq<Skill>) {
    forall a, b :: 0 <= a < b < |skills| ==> skills[a].name != skills[b].name
  }

  /** No skill is listed twice: the site's skills have pairwise distinct names. */
  lemma SiteSkillNamesDistinct()
    ensures NamesDistinct(AllSkills)
  {
  }
}
