/** The display logic of the Professional template: the contact line, the
    links line, the skills grouped by level, the bullet list a description
    becomes, and the period of an experience. The markup itself is not
    modelled; each view is the sequence of texts it shows. */
module ProfessionalTemplate {
  import opened Wrappers
  import Sequences
  import Text
  import opened ResumeStore

  // Contact line

  /** A piece of a rendered line: text from the document, or a fixed label
      the template puts between such texts. */
  datatype Span = Shown(text: string) | Label(text: string)

  const PhoneLabel := Label(" || Phone: ")
  const EmailLabel := Label(" || Email: ")

  /** The document texts of a line, in order. */
  function Texts(spans: seq<Span>): (r: seq<string>)
    ensures |r| <= |spans|
    ensures forall t :: t in r ==> Shown(t) in spans
  {
    if |spans| == 0 then []
    else
      var rest := Texts(spans[1..]);
      assert forall t :: t in rest ==> Shown(t) in spans by {
        forall t | t in rest ensures Shown(t) in spans {
          var k :| 0 <= k < |spans[1..]| && spans[1..][k] == Shown(t);
          assert spans[k + 1] == Shown(t);
        }
      }
      TextOf(spans[0]) + rest
  }

  /** The document text a single span contributes: its text if shown. */
  function TextOf(x: Span): seq<string> {
    if x.Shown? then [x.text] else []
  }

  /** Texts and labels alternate, starting and ending with a text: no label
      dangles and no two texts run together. */
  predicate Alternating(spans: seq<Span>) {
    && (forall i :: 0 <= i < |spans| ==> (spans[i].Shown? <==> i % 2 == 0))
    && (|spans| > 0 ==> spans[|spans| - 1].Shown?)
  }

  /** The line under the name: location, phone and email, each only when
      set; the phone label only after a location, the email label only after
      a location or a phone. */
  function ContactLine(p: PersonalInfo): (r: seq<Span>)
    ensures PhoneLabel in r <==> p.location != "" && p.phone != ""
    ensures EmailLabel in r <==> p.email != "" && (p.location != "" || p.phone != "")
    ensures Texts(r) == Sequences.Filter([p.location, p.phone, p.email], NonEmpty)
    ensures Alternating(r)
    ensures forall i :: 0 < i < |r| && r[i - 1] == PhoneLabel ==> r[i] == Shown(p.phone)
    ensures forall i :: 0 < i < |r| && r[i - 1] == EmailLabel ==> r[i] == Shown(p.email)
  {
    var r := ContactParts(p.location, p.phone, p.email);
    assert Texts(r) == Sequences.Filter([p.location, p.phone, p.email], NonEmpty) by {
      ContactTexts(p.location, p.phone, p.email);
    }
    assert Alternating(r) by {
      ContactAlternates(p.location, p.phone, p.email);
    }
    ContactLabelsPlaced(p.location, p.phone, p.email);
    r
  }

  predicate NonEmpty(t: string) { t != "" }

  /** A field of the contact line: nothing when empty, else its text,
      preceded by `sep` when an earlier field was shown. */
  function Part(earlier: bool, sep: Span, t: string): seq<Span> {
    if t == "" then [] else (if earlier then [sep] else []) + [Shown(t)]
  }

  function ContactParts(loc: string, phone: string, email: string): seq<Span> {
    Part(false, PhoneLabel, loc) + Part(loc != "", PhoneLabel, phone)
      + Part(loc != "" || phone != "", EmailLabel, email)
  }

  lemma PartTexts(earlier: bool, sep: Span, t: string)
    requires sep.Label?
    ensures Texts(Part(earlier, sep, t)) == if t == "" then [] else [t]
  {
    assert [Shown(t)][1..] == [];
    assert [sep, Shown(t)][1..] == [Shown(t)];
  }

  lemma ContactTexts(loc: string, phone: string, email: string)
    ensures Texts(ContactParts(loc, phone, email)) == Sequences.Filter([loc, phone, email], NonEmpty)
  {
    var a := Part(false, PhoneLabel, loc);
    var b := Part(loc != "", PhoneLabel, phone);
    var c := Part(loc != "" || phone != "", EmailLabel, email);
    TextsAppend(a, b);
    TextsAppend(a + b, c);
    PartTexts(false, PhoneLabel, loc);
    PartTexts(loc != "", PhoneLabel, phone);
    PartTexts(loc != "" || phone != "", EmailLabel, email);
    FilterThree(loc, phone, email);
  }

  lemma FilterThree(x: string, y: string, z: string)
    ensures Sequences.Filter([x, y, z], NonEmpty)
      == (if x == "" then [] else [x]) + (if y == "" then [] else [y]) + (if z == "" then [] else [z])
  {
    var xs := [x, y, z];
    assert xs[3..] == [];
    Sequences.FilterAt(xs, 2, NonEmpty);
    assert Sequences.Filter(xs[2..], NonEmpty) == (if z == "" then [] else [z]);
    Sequences.FilterAt(xs, 1, NonEmpty);
    assert Sequences.Filter(xs[1..], NonEmpty) == (if y == "" then [] else [y]) + (if z == "" then [] else [z]);
    Sequences.FilterAt(xs, 0, NonEmpty);
    assert xs[0..] == xs;
  }

  lemma {:induction false} TextsAppend(a: seq<Span>, b: seq<Span>)
    ensures Texts(a + b) == Texts(a) + Texts(b)
    decreases |a|
  {
    if |a| > 0 {
      var ab := a + b;
      assert ab[0] == a[0];
      assert ab[1..] == a[1..] + b;
      TextsAppend(a[1..], b);
      calc {
        Texts(ab);
        TextOf(a[0]) + Texts(a[1..] + b);
        TextOf(a[0]) + (Texts(a[1..]) + Texts(b));
      }
    } else {
      assert a + b == b;
    }
  }

  /** Each label introduces its own field: the phone label stands right
      before the phone, the email label right before the email. */
  lemma ContactLabelsPlaced(loc: string, phone: string, email: string)
    ensures var r := ContactParts(loc, phone, email);
      forall i :: 0 < i < |r| && r[i - 1] == PhoneLabel ==> r[i] == Shown(phone)
    ensures var r := ContactParts(loc, phone, email);
      forall i :: 0 < i < |r| && r[i - 1] == EmailLabel ==> r[i] == Shown(email)
  {
    var r := ContactParts(loc, phone, email);
    if loc != "" && phone != "" && email != "" {
      assert r == [Shown(loc), PhoneLabel, Shown(phone), EmailLabel, Shown(email)];
    } else if loc != "" && phone != "" {
      assert r == [Shown(loc), PhoneLabel, Shown(phone)];
    } else if (loc != "" || phone != "") && email != "" {
      assert r == [Shown(if loc != "" then loc else phone), EmailLabel, Shown(email)];
    } else {
      assert |r| <= 1;
    }
  }

  /** Whichever of the three fields are set, the contact line alternates
      between texts and labels. */
  lemma ContactAlternates(loc: string, phone: string, email: string)
    ensures Alternating(ContactParts(loc, phone, email))
  {
    var r := ContactParts(loc, phone, email);
    var present := (if loc != "" then [loc] else []) + (if phone != "" then [phone] else [])
      + (if email != "" then [email] else []);
    if |present| == 0 {
      assert r == [];
    } else if |present| == 1 {
      assert r == [Shown(present[0])];
    } else if |present| == 2 {
      var l := if email != "" then EmailLabel else PhoneLabel;
      assert r == [Shown(present[0]), l, Shown(present[1])];
    } else {
      assert r == [Shown(loc), PhoneLabel, Shown(phone), EmailLabel, Shown(email)];
    }
  }

  // Links line

  /** `link.label` is `caption` here, `label` being a Dafny keyword. */
  datatype Link = Link(id: string, caption: string, url: string)

  /** One link of the links line, followed by what is written after it. */
  datatype LinkSpan = LinkSpan(link: Link, after: string)

  /** The links section: absent when the document has no links or an empty
      list of them; otherwise every link in order, each but the last followed
      by ", ". */
  function LinksLine(links: Option<seq<Link>>): (r: Option<seq<LinkSpan>>)
    ensures r.None? <==> links.None? || |links.value| == 0
    ensures r.Some? ==> |r.value| == |links.value|
    ensures r.Some? ==> forall i :: 0 <= i < |r.value| ==>
      r.value[i].link == links.value[i] && r.value[i].after == (if i < |r.value| - 1 then ", " else "")
  {
    if links.None? || |links.value| == 0 then None
    else Some(LinkSpans(links.value))
  }

  function LinkSpans(links: seq<Link>): (r: seq<LinkSpan>)
    ensures |r| == |links|
    ensures forall i :: 0 <= i < |r| ==>
      r[i].link == links[i] && r[i].after == (if i < |r| - 1 then ", " else "")
  {
    seq(|links|, i requires 0 <= i < |links| => LinkSpan(links[i], if i < |links| - 1 then ", " else ""))
  }

  /** The visible text of the links line. */
  function LinksText(spans: seq<LinkSpan>): string {
    if |spans| == 0 then "" else spans[0].link.caption + spans[0].after + LinksText(spans[1..])
  }

  function Captions(links: seq<Link>): (r: seq<string>)
    ensures |r| == |links|
    ensures forall i :: 0 <= i < |r| ==> r[i] == links[i].caption
  {
    seq(|links|, i requires 0 <= i < |links| => links[i].caption)
  }

  /** The links line reads as the labels joined by ", ": a separator between
      neighbours and none after the last. */
  lemma {:induction false} LinksTextIsJoin(links: seq<Link>)
    ensures LinksText(LinkSpans(links)) == Sequences.Join(Captions(links), ", ")
    decreases |links|
  {
    if |links| > 1 {
      LinksTextIsJoin(links[1..]);
      assert LinkSpans(links)[1..] == LinkSpans(links[1..]);
      assert Captions(links)[1..] == Captions(links[1..]);
    } else if |links| == 1 {
      assert LinkSpans(links)[1..] == [];
    }
  }

  // Skills

  predicate IsFrontend(s: Skill) { s.level == 5.0 }

  predicate IsBackend(s: Skill) { s.level == 4.0 }

  /** `!s.level || s.level < 4`: a level of 0 is falsy. */
  predicate IsOther(s: Skill) { s.level == 0.0 || s.level < 4.0 }

  /** `skill.level && skill.level >= 4`. */
  predicate IsHigh(s: Skill) { s.level != 0.0 && s.level >= 4.0 }

  datatype SkillGroup = SkillGroup(heading: string, members: seq<Skill>)

  /** The skills section: one line of every name, or up to three headed
      groups. */
  datatype SkillsView = Plain(members: seq<Skill>) | Grouped(groups: seq<SkillGroup>)

  function Names(skills: seq<Skill>): (r: seq<string>)
    ensures |r| == |skills|
    ensures forall i :: 0 <= i < |r| ==> r[i] == skills[i].name
  {
    seq(|skills|, i requires 0 <= i < |skills| => skills[i].name)
  }

  /** The text a line of skills shows: the names joined by ", ". */
  function SkillsText(skills: seq<Skill>): string {
    Sequences.Join(Names(skills), ", ")
  }

  function Headings(groups: seq<SkillGroup>): (r: seq<string>)
    ensures |r| == |groups|
    ensures forall i :: 0 <= i < |r| ==> r[i] == groups[i].heading
  {
    seq(|groups|, i requires 0 <= i < |groups| => groups[i].heading)
  }

  /** `g` is the group of `skills` that `keep` selects: not empty, in the
      document's order, and holding every selected skill, as many times as
      the document lists it, and nothing else. */
  ghost predicate GroupOf(g: SkillGroup, skills: seq<Skill>, keep: Skill -> bool) {
    && |g.members| > 0
    && Sequences.Subseq(g.members, skills)
    && (forall i :: 0 <= i < |g.members| ==> keep(g.members[i]))
    && (forall i :: 0 <= i < |skills| && keep(skills[i]) ==> skills[i] in g.members)
    && (forall x {:trigger multiset(g.members)[x]} :: multiset(g.members)[x] == if keep(x) then multiset(skills)[x] else 0)
  }

  function Selects(heading: string): Skill -> bool {
    if heading == "Frontend" then IsFrontend
    else if heading == "Backend" then IsBackend
    else IsOther
  }

  /** A heading with the skills `keep` selects, or nothing when there are
      none. */
  function GroupIf(heading: string, skills: seq<Skill>, keep: Skill -> bool): seq<SkillGroup> {
    var members := Sequences.Filter(skills, keep);
    if |members| > 0 then [SkillGroup(heading, members)] else []
  }

  /** A group is present exactly when some skill qualifies, and then it is
      the group `keep` selects. */
  lemma GroupIfFacts(heading: string, skills: seq<Skill>, keep: Skill -> bool)
    ensures |GroupIf(heading, skills, keep)| <= 1
    ensures |GroupIf(heading, skills, keep)| == 1 <==> exists i :: 0 <= i < |skills| && keep(skills[i])
    ensures |GroupIf(heading, skills, keep)| == 1 ==>
      GroupIf(heading, skills, keep)[0].heading == heading && GroupOf(GroupIf(heading, skills, keep)[0], skills, keep)
  {
    var members := Sequences.Filter(skills, keep);
    Sequences.FilterKeeps(skills, keep);
    Sequences.FilterSubseq(skills, keep);
    Sequences.FilterCount(skills, keep);
    if |members| > 0 {
      assert members[0] in skills by { Sequences.SubseqMembers(members, skills); }
    }
  }

  /** The grouped skills view: headings drawn in order from Frontend,
      Backend and Other Skills, each group exactly the skills its heading
      selects, and a heading present exactly when some skill belongs under
      it. */
  ghost predicate WellGrouped(groups: seq<SkillGroup>, skills: seq<Skill>) {
    && Sequences.Subseq(Headings(groups), ["Frontend", "Backend", "Other Skills"])
    && (forall k :: 0 <= k < |groups| ==> GroupOf(groups[k], skills, Selects(groups[k].heading)))
    && ("Frontend" in Headings(groups) <==> exists i :: 0 <= i < |skills| && IsFrontend(skills[i]))
    && ("Backend" in Headings(groups) <==> exists i :: 0 <= i < |skills| && IsBackend(skills[i]))
    && ("Other Skills" in Headings(groups) <==> exists i :: 0 <= i < |skills| && IsOther(skills[i]))
  }

  /** The skills section, absent for an empty list. With no skill of level 4
      or more, every skill in document order; otherwise the Frontend, Backend
      and Other Skills groups. */
  function SkillsSection(skills: seq<Skill>): (v: Option<SkillsView>)
    ensures v.None? <==> |skills| == 0
    ensures v.Some? ==> (v.value.Plain? <==> forall i :: 0 <= i < |skills| ==> !IsHigh(skills[i]))
    ensures v.Some? && v.value.Plain? ==> v.value.members == skills
    ensures v.Some? && v.value.Grouped? ==> WellGrouped(v.value.groups, skills)
  {
    if |skills| == 0 then None
    else if forall i :: 0 <= i < |skills| ==> !IsHigh(skills[i]) then Some(Plain(skills))
    else
      GroupedFacts(skills);
      Some(Grouped(Groups(skills)))
  }

  function Groups(skills: seq<Skill>): seq<SkillGroup> {
    GroupIf("Frontend", skills, IsFrontend) + GroupIf("Backend", skills, IsBackend)
      + GroupIf("Other Skills", skills, IsOther)
  }

  lemma GroupedFacts(skills: seq<Skill>)
    ensures WellGrouped(Groups(skills), skills)
  {
    var f := GroupIf("Frontend", skills, IsFrontend);
    var b := GroupIf("Backend", skills, IsBackend);
    var o := GroupIf("Other Skills", skills, IsOther);
    assert |f| <= 1 && (|f| == 1 <==> exists i :: 0 <= i < |skills| && IsFrontend(skills[i]))
      && (|f| == 1 ==> f[0].heading == "Frontend") by { GroupIfFacts("Frontend", skills, IsFrontend); }
    assert |b| <= 1 && (|b| == 1 <==> exists i :: 0 <= i < |skills| && IsBackend(skills[i]))
      && (|b| == 1 ==> b[0].heading == "Backend") by { GroupIfFacts("Backend", skills, IsBackend); }
    assert |o| <= 1 && (|o| == 1 <==> exists i :: 0 <= i < |skills| && IsOther(skills[i]))
      && (|o| == 1 ==> o[0].heading == "Other Skills") by { GroupIfFacts("Other Skills", skills, IsOther); }
    HeadingsInOrder(f, b, o);
    GroupsSelected(f, b, o, skills);
  }

  /** The groups built for the three headings are each the group their
      heading selects. */
  lemma GroupsSelected(f: seq<SkillGroup>, b: seq<SkillGroup>, o: seq<SkillGroup>, skills: seq<Skill>)
    requires f == GroupIf("Frontend", skills, IsFrontend)
    requires b == GroupIf("Backend", skills, IsBackend)
    requires o == GroupIf("Other Skills", skills, IsOther)
    ensures forall k :: 0 <= k < |f + b + o| ==> GroupOf((f + b + o)[k], skills, Selects((f + b + o)[k].heading))
  {
    var gs := f + b + o;
    forall k | 0 <= k < |gs| ensures GroupOf(gs[k], skills, Selects(gs[k].heading)) {
      if k < |f| {
        assert gs[k] == f[0];
        SelectedGroup("Frontend", skills, f[0]);
      } else if k < |f| + |b| {
        assert gs[k] == b[0];
        SelectedGroup("Backend", skills, b[0]);
      } else {
        assert gs[k] == o[0];
        SelectedGroup("Other Skills", skills, o[0]);
      }
    }
  }

  lemma SelectedGroup(heading: string, skills: seq<Skill>, g: SkillGroup)
    requires GroupIf(heading, skills, Selects(heading)) == [g]
    ensures g.heading == heading && GroupOf(g, skills, Selects(g.heading))
  {
    GroupIfFacts(heading, skills, Selects(heading));
  }

  lemma HeadingsInOrder(f: seq<SkillGroup>, b: seq<SkillGroup>, o: seq<SkillGroup>)
    requires |f| <= 1 && |b| <= 1 && |o| <= 1
    requires |f| == 1 ==> f[0].heading == "Frontend"
    requires |b| == 1 ==> b[0].heading == "Backend"
    requires |o| == 1 ==> o[0].heading == "Other Skills"
    ensures Sequences.Subseq(Headings(f + b + o), ["Frontend", "Backend", "Other Skills"])
    ensures "Frontend" in Headings(f + b + o) <==> |f| == 1
    ensures "Backend" in Headings(f + b + o) <==> |b| == 1
    ensures "Other Skills" in Headings(f + b + o) <==> |o| == 1
  {
    assert Headings(f + b + o) == Headings(f) + Headings(b) + Headings(o);
    assert Headings(f) == HeadingIf(|f| == 1, "Frontend");
    assert Headings(b) == HeadingIf(|b| == 1, "Backend");
    assert Headings(o) == HeadingIf(|o| == 1, "Other Skills");
    HeadingsIfInOrder(|f| == 1, |b| == 1, |o| == 1);
  }

  /** The one-heading list of a group that is shown, the empty one otherwise. */
  function HeadingIf(present: bool, heading: string): seq<string> {
    if present then [heading] else []
  }

  /** Whichever groups are shown, their headings keep the template's order. */
  lemma HeadingsIfInOrder(x: bool, y: bool, z: bool)
    ensures Sequences.Subseq(HeadingIf(x, "Frontend") + HeadingIf(y, "Backend") + HeadingIf(z, "Other Skills"),
      ["Frontend", "Backend", "Other Skills"])
  {
    var all := ["Frontend", "Backend", "Other Skills"];
    var tailO := HeadingIf(z, "Other Skills");
    var tailB := HeadingIf(y, "Backend") + tailO;
    var hs := HeadingIf(x, "Frontend") + tailB;
    assert all[1..][1..] == all[2..];
    assert Sequences.Subseq(tailO, all[2..]) by {
      if z { assert Sequences.Subseq(tailO[1..], all[3..]); }
    }
    assert Sequences.Subseq(tailB, all[1..]) by {
      if y { assert tailB[1..] == tailO; }
    }
    assert Sequences.Subseq(hs, all) by {
      if x { assert hs[1..] == tailB; } else { assert hs == tailB; }
    }
    assert hs == HeadingIf(x, "Frontend") + HeadingIf(y, "Backend") + HeadingIf(z, "Other Skills");
  }

  /** The slider only stores the whole numbers 1 to 5. */
  predicate SliderLevel(x: real) {
    x == 1.0 || x == 2.0 || x == 3.0 || x == 4.0 || x == 5.0
  }

  /** For levels the slider can store, every skill lands in exactly one of
      the three groups, so the grouped view shows each skill once. */
  lemma SliderLevelsPartition(skills: seq<Skill>)
    requires forall i :: 0 <= i < |skills| ==> SliderLevel(skills[i].level)
    ensures multiset(Sequences.Filter(skills, IsFrontend)) + multiset(Sequences.Filter(skills, IsBackend))
      + multiset(Sequences.Filter(skills, IsOther)) == multiset(skills)
    ensures |Sequences.Filter(skills, IsFrontend)| + |Sequences.Filter(skills, IsBackend)|
      + |Sequences.Filter(skills, IsOther)| == |skills|
  {
    Sequences.FilterPartition3(skills, IsFrontend, IsBackend, IsOther);
  }

  /** A level the slider never stores, such as 4.5 or 6, counts as high but
      falls in no group: a document whose only skill has such a level shows
      the Skills heading with no group under it. */
  lemma OffScaleLevelInNoGroup(s: Skill)
    requires s.level == 4.5 || s.level == 6.0
    ensures IsHigh(s) && !IsFrontend(s) && !IsBackend(s) && !IsOther(s)
    ensures SkillsSection([s]) == Some(Grouped([]))
  {
    Sequences.FilterAt([s], 0, IsFrontend);
    Sequences.FilterAt([s], 0, IsBackend);
    Sequences.FilterAt([s], 0, IsOther);
    assert [s][0..] == [s] && [s][1..] == [];
  }

  /** The skills of the sample document. */
  const SampleSkills := [
    Skill("skill1", "React", 5.0),
    Skill("skill2", "TypeScript", 5.0),
    Skill("skill3", "Node.js", 4.0),
    Skill("skill4", "Python", 4.0),
    Skill("skill5", "AWS", 4.0),
    Skill("skill6", "Docker", 3.0),
    Skill("skill7", "GraphQL", 3.0)
  ]

  lemma SampleFrontend(s: seq<Skill>)
    requires SampleLevels(s)
    ensures Sequences.Filter(s, IsFrontend) == s[0..2]
  {
    assert s[7..] == [];
    Sequences.FilterAt(s, 6, IsFrontend);
    assert Sequences.Filter(s[6..], IsFrontend) == [];
    Sequences.FilterAt(s, 5, IsFrontend);
    assert Sequences.Filter(s[5..], IsFrontend) == [];
    Sequences.FilterAt(s, 4, IsFrontend);
    assert Sequences.Filter(s[4..], IsFrontend) == [];
    Sequences.FilterAt(s, 3, IsFrontend);
    assert Sequences.Filter(s[3..], IsFrontend) == [];
    Sequences.FilterAt(s, 2, IsFrontend);
    assert Sequences.Filter(s[2..], IsFrontend) == [];
    Sequences.FilterAt(s, 1, IsFrontend);
    assert Sequences.Filter(s[1..], IsFrontend) == s[1..2];
    Sequences.FilterAt(s, 0, IsFrontend);
    assert Sequences.Filter(s[0..], IsFrontend) == s[0..2];
    assert s[0..] == s;
  }

  lemma SampleBackend(s: seq<Skill>)
    requires SampleLevels(s)
    ensures Sequences.Filter(s, IsBackend) == s[2..5]
  {
    assert s[7..] == [];
    Sequences.FilterAt(s, 6, IsBackend);
    assert Sequences.Filter(s[6..], IsBackend) == [];
    Sequences.FilterAt(s, 5, IsBackend);
    assert Sequences.Filter(s[5..], IsBackend) == [];
    Sequences.FilterAt(s, 4, IsBackend);
    assert Sequences.Filter(s[4..], IsBackend) == s[4..5];
    Sequences.FilterAt(s, 3, IsBackend);
    assert Sequences.Filter(s[3..], IsBackend) == s[3..5];
    Sequences.FilterAt(s, 2, IsBackend);
    assert Sequences.Filter(s[2..], IsBackend) == s[2..5];
    Sequences.FilterAt(s, 1, IsBackend);
    assert Sequences.Filter(s[1..], IsBackend) == s[2..5];
    Sequences.FilterAt(s, 0, IsBackend);
    assert Sequences.Filter(s[0..], IsBackend) == s[2..5];
    assert s[0..] == s;
  }

  lemma SampleOther(s: seq<Skill>)
    requires SampleLevels(s)
    ensures Sequences.Filter(s, IsOther) == s[5..7]
  {
    assert s[7..] == [];
    Sequences.FilterAt(s, 6, IsOther);
    assert Sequences.Filter(s[6..], IsOther) == s[6..7];
    Sequences.FilterAt(s, 5, IsOther);
    assert Sequences.Filter(s[5..], IsOther) == s[5..7];
    Sequences.FilterAt(s, 4, IsOther);
    assert Sequences.Filter(s[4..], IsOther) == s[5..7];
    Sequences.FilterAt(s, 3, IsOther);
    assert Sequences.Filter(s[3..], IsOther) == s[5..7];
    Sequences.FilterAt(s, 2, IsOther);
    assert Sequences.Filter(s[2..], IsOther) == s[5..7];
    Sequences.FilterAt(s, 1, IsOther);
    assert Sequences.Filter(s[1..], IsOther) == s[5..7];
    Sequences.FilterAt(s, 0, IsOther);
    assert Sequences.Filter(s[0..], IsOther) == s[5..7];
    assert s[0..] == s;
  }

  /** The levels of the sample document's skills, in order. */
  predicate SampleLevels(s: seq<Skill>) {
    && |s| == 7
    && s[0].level == 5.0 && s[1].level == 5.0
    && s[2].level == 4.0 && s[3].level == 4.0 && s[4].level == 4.0
    && s[5].level == 3.0 && s[6].level == 3.0
  }

  /** Skills with the sample document's levels are shown as the first two
      under Frontend, the next three under Backend and the last two under
      Other Skills. */
  lemma SampleLevelGroups(s: seq<Skill>)
    requires SampleLevels(s)
    ensures SkillsSection(s) == Some(Grouped([
      SkillGroup("Frontend", s[0..2]),
      SkillGroup("Backend", s[2..5]),
      SkillGroup("Other Skills", s[5..7])]))
  {
    assert IsHigh(s[0]);
    SampleGroups(s);
  }

  lemma SampleGroups(s: seq<Skill>)
    requires SampleLevels(s)
    ensures Groups(s) == [
      SkillGroup("Frontend", s[0..2]),
      SkillGroup("Backend", s[2..5]),
      SkillGroup("Other Skills", s[5..7])]
  {
    SampleFrontend(s);
    SampleBackend(s);
    SampleOther(s);
    GroupsOfFilters(s, s[0..2], s[2..5], s[5..7]);
  }

  /** Three non-empty filter results give the three groups. */
  lemma GroupsOfFilters(s: seq<Skill>, f: seq<Skill>, b: seq<Skill>, o: seq<Skill>)
    requires Sequences.Filter(s, IsFrontend) == f && |f| > 0
    requires Sequences.Filter(s, IsBackend) == b && |b| > 0
    requires Sequences.Filter(s, IsOther) == o && |o| > 0
    ensures Groups(s) == [SkillGroup("Frontend", f), SkillGroup("Backend", b), SkillGroup("Other Skills", o)]
  {
    assert GroupIf("Frontend", s, IsFrontend) == [SkillGroup("Frontend", f)];
    assert GroupIf("Backend", s, IsBackend) == [SkillGroup("Backend", b)];
    assert GroupIf("Other Skills", s, IsOther) == [SkillGroup("Other Skills", o)];
  }

  /** React and TypeScript under Frontend, Node.js, Python and AWS under
      Backend, Docker and GraphQL under Other Skills. */
  lemma SampleSkillGroups()
    ensures SkillsSection(SampleSkills) == Some(Grouped([
      SkillGroup("Frontend", SampleSkills[0..2]),
      SkillGroup("Backend", SampleSkills[2..5]),
      SkillGroup("Other Skills", SampleSkills[5..7])]))
  {
    SampleLevelGroups(SampleSkills);
  }

  /** The Frontend line of the sample document. */
  lemma SampleFrontendLine()
    ensures SkillsText(SampleSkills[0..2]) == "React, TypeScript"
  {
    assert Names(SampleSkills[0..2]) == ["React", "TypeScript"];
    assert ["React", "TypeScript"][1..] == ["TypeScript"];
  }

  // Descriptions

  const Bullet: char := '\U{2022}'

  /** An experience description: a list of points when it contains a bullet
      character, the text as it is otherwise. */
  datatype DescriptionView = Points(points: seq<string>) | Paragraph(text: string)

  function TrimAll(xs: seq<string>): (r: seq<string>)
    ensures |r| == |xs|
    ensures forall i :: 0 <= i < |r| ==> r[i] == Text.Trim(xs[i])
  {
    seq(|xs|, i requires 0 <= i < |xs| => Text.Trim(xs[i]))
  }

  /** `description.split('•').filter(Boolean).map(p => p.trim())`: empty
      pieces are dropped before trimming, so a piece of white space alone
      becomes an empty point. */
  function PointsOf(desc: string): seq<string> {
    TrimAll(Sequences.Filter(Sequences.Split(desc, Bullet), NonEmpty))
  }

  /** The description of an experience, as a list of points when it holds a
      bullet and as it is otherwise. */
  function Description(desc: string): (v: DescriptionView)
    ensures v.Points? <==> Bullet in desc
    ensures v.Paragraph? ==> v.text == desc
    ensures v.Points? ==> |v.points| <= multiset(desc)[Bullet] + 1
    ensures v.Points? ==> forall i :: 0 <= i < |v.points| ==>
      Bullet !in v.points[i] && Text.Trim(v.points[i]) == v.points[i]
    ensures v.Points? ==> exists pieces :: BulletPieces(pieces, desc) && v.points == TrimAll(Sequences.Filter(pieces, NonEmpty))
  {
    if desc != "" && Bullet in desc then
      PointsClean(desc);
      Sequences.JoinSplit(desc, Bullet);
      assert BulletPieces(Sequences.Split(desc, Bullet), desc);
      Points(PointsOf(desc))
    else Paragraph(desc)
  }

  /** `pieces` are the stretches of `desc` between its bullets. */
  predicate BulletPieces(pieces: seq<string>, desc: string) {
    && |pieces| > 0
    && Sequences.Join(pieces, [Bullet]) == desc
    && forall i :: 0 <= i < |pieces| ==> Bullet !in pieces[i]
  }

  /** A described text with bullets reads as the trimmed non-empty pieces
      between its bullets, whichever way those pieces are found. */
  lemma DescriptionPoints(desc: string, pieces: seq<string>)
    requires Bullet in desc && BulletPieces(pieces, desc)
    ensures Description(desc) == Points(TrimAll(Sequences.Filter(pieces, NonEmpty)))
  {
    Sequences.SplitJoin(pieces, Bullet);
  }

  lemma PointsClean(desc: string)
    ensures |PointsOf(desc)| <= multiset(desc)[Bullet] + 1
    ensures forall i :: 0 <= i < |PointsOf(desc)| ==>
      Bullet !in PointsOf(desc)[i] && Text.Trim(PointsOf(desc)[i]) == PointsOf(desc)[i]
  {
    var pieces := Sequences.Split(desc, Bullet);
    var kept := Sequences.Filter(pieces, NonEmpty);
    Sequences.FilterSubseq(pieces, NonEmpty);
    Sequences.SubseqMembers(kept, pieces);
    var points := TrimAll(kept);
    forall i | 0 <= i < |points| ensures Bullet !in points[i] && Text.Trim(points[i]) == points[i] {
      assert kept[i] in pieces;
      Text.TrimIdempotent(kept[i]);
      TrimInside(kept[i], Bullet);
    }
  }

  /** Trimming only removes characters. */
  lemma TrimInside(s: string, c: char)
    requires c !in s
    ensures c !in Text.Trim(s)
  {
    var t := Text.TrimStart(s);
    assert forall x :: x in t ==> x in s;
    var r := Text.TrimEnd(t);
    assert forall x :: x in r ==> x in t;
  }

  /** Points that are trimmed, non-empty and free of bullets, each written
      after a bullet, are read back as the same points. */
  lemma {:induction false} PointsRoundTrip(points: seq<string>)
    requires |points| > 0
    requires forall i :: 0 <= i < |points| ==>
      points[i] != "" && Bullet !in points[i] && Text.Trim(points[i]) == points[i]
    ensures Description([Bullet] + Sequences.Join(points, [Bullet])) == Points(points)
  {
    var desc := [Bullet] + Sequences.Join(points, [Bullet]);
    assert desc[0] == Bullet;
    SplitBulleted(points);
    FilterBulleted(points);
    TrimAllTrimmed(points);
  }

  lemma SplitBulleted(points: seq<string>)
    requires |points| > 0
    requires forall i :: 0 <= i < |points| ==> Bullet !in points[i]
    ensures Sequences.Split([Bullet] + Sequences.Join(points, [Bullet]), Bullet) == [""] + points
  {
    var pieces := [""] + points;
    assert |pieces| >= 2 && pieces[0] == "" && pieces[1..] == points;
    assert Sequences.Join(pieces, [Bullet]) == pieces[0] + [Bullet] + Sequences.Join(pieces[1..], [Bullet]);
    assert forall i :: 0 <= i < |pieces| ==> Bullet !in pieces[i];
    Sequences.SplitJoin(pieces, Bullet);
    assert Sequences.Split(Sequences.Join(pieces, [Bullet]), Bullet) == pieces;
  }

  lemma FilterBulleted(points: seq<string>)
    requires forall i :: 0 <= i < |points| ==> points[i] != ""
    ensures Sequences.Filter([""] + points, NonEmpty) == points
  {
    var pieces := [""] + points;
    Sequences.FilterAt(pieces, 0, NonEmpty);
    assert pieces[0..] == pieces && pieces[1..] == points;
    Sequences.FilterAll(points, NonEmpty);
  }

  lemma TrimAllTrimmed(points: seq<string>)
    requires forall i :: 0 <= i < |points| ==> Text.Trim(points[i]) == points[i]
    ensures TrimAll(points) == points
  {
  }

  /** A point of white space alone survives as an empty point. */
  lemma BlankPointKept(a: string, w: string, b: string)
    requires a != "" && Bullet !in a && Text.Trim(a) == a
    requires b != "" && Bullet !in b && Text.Trim(b) == b
    requires w != "" && Bullet !in w && Text.Blank(w)
    ensures Description(a + [Bullet] + w + [Bullet] + b) == Points([a, "", b])
  {
    var desc := a + [Bullet] + w + [Bullet] + b;
    assert desc[|a|] == Bullet;
    PointsOfThree(a, w, b);
  }

  lemma PointsOfThree(a: string, w: string, b: string)
    requires a != "" && Bullet !in a && Text.Trim(a) == a
    requires b != "" && Bullet !in b && Text.Trim(b) == b
    requires w != "" && Bullet !in w && Text.Blank(w)
    ensures PointsOf(a + [Bullet] + w + [Bullet] + b) == [a, "", b]
  {
    SplitThree(a, w, b);
    Sequences.FilterAll([a, w, b], NonEmpty);
    TrimThree(a, w, b);
  }

  lemma TrimThree(a: string, w: string, b: string)
    requires Text.Trim(a) == a && Text.Trim(b) == b && Text.Blank(w)
    ensures TrimAll([a, w, b]) == [a, "", b]
  {
    TrimAllThree(a, w, b);
    assert Text.Trim(w) == "";
  }

  lemma TrimAllThree(x: string, y: string, z: string)
    ensures TrimAll([x, y, z]) == [Text.Trim(x), Text.Trim(y), Text.Trim(z)]
  {
    var r := TrimAll([x, y, z]);
    ThreeOf(r, Text.Trim(x), Text.Trim(y), Text.Trim(z));
  }

  lemma ThreeOf<T>(r: seq<T>, x: T, y: T, z: T)
    requires |r| == 3 && r[0] == x && r[1] == y && r[2] == z
    ensures r == [x, y, z]
  {
  }

  lemma SplitThree(a: string, w: string, b: string)
    requires Bullet !in a && Bullet !in w && Bullet !in b
    ensures Sequences.Split(a + [Bullet] + w + [Bullet] + b, Bullet) == [a, w, b]
  {
    JoinThree(a, w, b);
    Sequences.SplitJoin([a, w, b], Bullet);
  }

  lemma JoinThree(a: string, w: string, b: string)
    ensures Sequences.Join([a, w, b], [Bullet]) == a + [Bullet] + w + [Bullet] + b
  {
    assert [w, b][1..] == [b];
    assert Sequences.Join([w, b], [Bullet]) == w + [Bullet] + b;
    assert [a, w, b][1..] == [w, b];
  }

  // Experience period

  const Dash := " \U{2014} "

  /** The period of an experience: its start, a dash, and "Present" for a
      current position or its end date otherwise. */
  function ExperiencePeriod(e: Experience): (s: string)
    ensures e.current ==> s == e.startDate + Dash + "Present"
    ensures !e.current ==> s == e.startDate + Dash + e.endDate
  {
    e.startDate + Dash + (if e.current then "Present" else e.endDate)
  }
}
