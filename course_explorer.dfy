/** The course explorer's search filter and aggregate counts
    (src/components/course/CourseExplorer.tsx). The filter keeps a slide
    whose name or type contains the lower-cased search term, a chapter,
    module or subject whose own name contains it or that keeps some child,
    and prunes every kept item down to its kept children. */
module CourseExplorer {
  import opened Wrappers
  import opened Text
  import opened CourseData

  // ---------------------------------------------------------------------
  // Sequence helpers
  // ---------------------------------------------------------------------

  /** The sum of `f` over `s`, accumulated front to back as `forEach` and
      `reduce` do. */
  function Sum<T>(s: seq<T>, f: T -> nat): nat {
    if s == [] then 0 else Sum(s[..|s| - 1], f) + f(s[|s| - 1])
  }

  /** A sum is at least each of its terms, and zero exactly when every term
      is. */
  lemma {:induction false} SumBounds<T>(s: seq<T>, f: T -> nat)
    ensures forall x :: x in s ==> f(x) <= Sum(s, f)
    ensures Sum(s, f) == 0 <==> forall x :: x in s ==> f(x) == 0
    decreases |s|
  {
    if s != [] {
      var init := s[..|s| - 1];
      SumBounds(init, f);
      assert forall x :: x in s ==> x in init || x == s[|s| - 1];
    }
  }

  lemma SumStep<T>(s: seq<T>, i: nat, f: T -> nat)
    requires i < |s|
    ensures Sum(s[..i + 1], f) == Sum(s[..i], f) + f(s[i])
  {
    assert s[..i + 1][..i] == s[..i];
  }

  /** `a` is what is left of `b` after dropping some elements and pruning
      each kept one, with the relative order unchanged: `pruned(x, y)`
      relates a kept `x` to the element `y` it was cut from. */
  predicate Embeds<A, B>(a: seq<A>, b: seq<B>, pruned: (A, B) -> bool)
    decreases |b|
  {
    a == [] ||
    (b != [] &&
      ((pruned(a[|a| - 1], b[|b| - 1]) && Embeds(a[..|a| - 1], b[..|b| - 1], pruned)) ||
       Embeds(a, b[..|b| - 1], pruned)))
  }

  /** Keeping an element unchanged. */
  predicate Same<T(==)>(x: T, y: T) {
    x == y
  }

  /** Every sequence embeds in itself when each element may stand for
      itself. */
  lemma {:induction false} EmbedsReflexive<T>(a: seq<T>, pruned: (T, T) -> bool)
    requires forall x :: x in a ==> pruned(x, x)
    ensures Embeds(a, a, pruned)
    decreases |a|
  {
    if a != [] {
      EmbedsReflexive(a[..|a| - 1], pruned);
    }
  }

  /** An embedded sequence is never longer. */
  lemma {:induction false} EmbedsLength<A, B>(a: seq<A>, b: seq<B>, pruned: (A, B) -> bool)
    requires Embeds(a, b, pruned)
    ensures |a| <= |b|
    decreases |b|
  {
    if a != [] {
      if pruned(a[|a| - 1], b[|b| - 1]) && Embeds(a[..|a| - 1], b[..|b| - 1], pruned) {
        EmbedsLength(a[..|a| - 1], b[..|b| - 1], pruned);
      } else {
        EmbedsLength(a, b[..|b| - 1], pruned);
      }
    }
  }

  /** When pruning never increases a measure, the embedded sequence's total
      is at most the original's. */
  lemma {:induction false} EmbedsSum<A, B>(a: seq<A>, b: seq<B>, pruned: (A, B) -> bool, fa: A -> nat, fb: B -> nat)
    requires Embeds(a, b, pruned)
    requires forall x, y :: pruned(x, y) ==> fa(x) <= fb(y)
    ensures Sum(a, fa) <= Sum(b, fb)
    decreases |b|
  {
    if a == [] {
    } else if pruned(a[|a| - 1], b[|b| - 1]) && Embeds(a[..|a| - 1], b[..|b| - 1], pruned) {
      EmbedsSum(a[..|a| - 1], b[..|b| - 1], pruned, fa, fb);
    } else {
      EmbedsSum(a, b[..|b| - 1], pruned, fa, fb);
    }
  }

  /** `xs.map(f).filter(Boolean)`: each element is mapped to a pruned copy
      or to nothing, and the nothings are dropped. */
  function FilterMap<T>(xs: seq<T>, f: T -> Option<T>): (r: seq<T>)
    ensures forall y :: y in r ==> exists x :: x in xs && f(x) == Some(y)
    ensures forall x :: x in xs && f(x).Some? ==> f(x).value in r
  {
    if xs == [] then []
    else
      var init := xs[..|xs| - 1];
      var rest := FilterMap(init, f);
      assert forall x :: x in xs ==> x in init || x == xs[|xs| - 1];
      match f(xs[|xs| - 1])
      case Some(y) => rest + [y]
      case None => rest
  }

  /** The filter keeps order and only prunes: its result embeds in its
      input whenever every copy `f` makes is a pruning of the original. */
  lemma {:induction false} FilterMapEmbeds<T>(xs: seq<T>, f: T -> Option<T>, pruned: (T, T) -> bool)
    requires forall x :: f(x).Some? ==> pruned(f(x).value, x)
    ensures Embeds(FilterMap(xs, f), xs, pruned)
    decreases |xs|
  {
    if xs != [] {
      var init := xs[..|xs| - 1];
      FilterMapEmbeds(init, f, pruned);
      var r := FilterMap(xs, f);
      match f(xs[|xs| - 1])
      case Some(y) =>
        assert r[..|r| - 1] == FilterMap(init, f);
      case None =>
    }
  }

  // ---------------------------------------------------------------------
  // Matching
  // ---------------------------------------------------------------------

  /** `text.toLowerCase().includes(q)`. */
  predicate Hit(text: string, q: string) {
    Contains(ToLower(text), q)
  }

  /** A slide matches when its name or its type contains the term. */
  predicate SlideHit(s: CourseSlide, q: string) {
    Hit(s.name, q) || Hit(s.kind, q)
  }

  // ---------------------------------------------------------------------
  // The filter, one level at a time
  // ---------------------------------------------------------------------

  /** `chapter.slides.filter(...)`: exactly the matching slides. */
  function FilterSlides(slides: seq<CourseSlide>, q: string): (r: seq<CourseSlide>)
    ensures forall s :: s in r <==> s in slides && SlideHit(s, q)
  {
    FilterMap(slides, s => if SlideHit(s, q) then Some(s) else None)
  }

  /** A chapter survives exactly when its name matches or one of its slides
      does, and then keeps only its matching slides (possibly none). */
  function PruneChapter(c: Chapter, q: string): (r: Option<Chapter>)
    ensures r.Some? <==> Hit(c.name, q) || exists s :: s in c.slides && SlideHit(s, q)
    ensures r.Some? ==>
      r.value.id == c.id && r.value.name == c.name &&
      forall s :: s in r.value.slides <==> s in c.slides && SlideHit(s, q)
  {
    var slides := FilterSlides(c.slides, q);
    assert |slides| > 0 ==> slides[0] in slides;
    if |slides| > 0 || Hit(c.name, q) then Some(c.(slides := slides)) else None
  }

  /** A module survives exactly when its name matches or one of its chapters
      survives, and then keeps only its surviving chapters, pruned. */
  function PruneModule(m: CourseModule, q: string): (r: Option<CourseModule>)
    ensures r.Some? <==> Hit(m.name, q) || exists c :: c in m.chapters && PruneChapter(c, q).Some?
    ensures r.Some? ==>
      r.value.id == m.id && r.value.name == m.name &&
      (forall c :: c in r.value.chapters ==> exists o :: o in m.chapters && PruneChapter(o, q) == Some(c)) &&
      (forall o :: o in m.chapters && PruneChapter(o, q).Some? ==> PruneChapter(o, q).value in r.value.chapters)
  {
    var chapters := FilterMap(m.chapters, c => PruneChapter(c, q));
    assert |chapters| > 0 ==> chapters[0] in chapters;
    if |chapters| > 0 || Hit(m.name, q) then Some(m.(chapters := chapters)) else None
  }

  /** A subject survives exactly when its name matches or one of its modules
      survives, and then keeps only its surviving modules, pruned. */
  function PruneSubject(s: Subject, q: string): (r: Option<Subject>)
    ensures r.Some? <==> Hit(s.name, q) || exists m :: m in s.modules && PruneModule(m, q).Some?
    ensures r.Some? ==>
      r.value.id == s.id && r.value.name == s.name &&
      (forall m :: m in r.value.modules ==> exists o :: o in s.modules && PruneModule(o, q) == Some(m)) &&
      (forall o :: o in s.modules && PruneModule(o, q).Some? ==> PruneModule(o, q).value in r.value.modules)
  {
    var modules := FilterMap(s.modules, m => PruneModule(m, q));
    assert |modules| > 0 ==> modules[0] in modules;
    if |modules| > 0 || Hit(s.name, q) then Some(s.(modules := modules)) else None
  }

  /** `filteredData`: the whole tree for a blank term, otherwise the pruned
      tree for the lower-cased (untrimmed) term. */
  function FilteredData(data: seq<Subject>, searchTerm: string): (r: seq<Subject>)
    ensures Blank(searchTerm) ==> r == data
    ensures !Blank(searchTerm) ==>
      (forall s :: s in r ==> exists o :: o in data && PruneSubject(o, ToLower(searchTerm)) == Some(s)) &&
      (forall o :: o in data && PruneSubject(o, ToLower(searchTerm)).Some? ==>
        PruneSubject(o, ToLower(searchTerm)).value in r)
  {
    if Trim(searchTerm) == [] then data
    else FilterMap(data, s => PruneSubject(s, ToLower(searchTerm)))
  }

  // ---------------------------------------------------------------------
  // Properties of the filter
  // ---------------------------------------------------------------------

  /** Every slide of a chapter, module or subject matches the term. */
  predicate ChapterMatches(c: Chapter, q: string) {
    forall x :: x in c.slides ==> SlideHit(x, q)
  }

  predicate ModuleMatches(m: CourseModule, q: string) {
    forall c :: c in m.chapters ==> ChapterMatches(c, q)
  }

  predicate SubjectMatches(s: Subject, q: string) {
    forall m :: m in s.modules ==> ModuleMatches(m, q)
  }

  lemma PrunedModuleMatches(m: CourseModule, q: string)
    requires PruneModule(m, q).Some?
    ensures ModuleMatches(PruneModule(m, q).value, q)
  {
    forall c | c in PruneModule(m, q).value.chapters ensures ChapterMatches(c, q) {
      var o :| o in m.chapters && PruneChapter(o, q) == Some(c);
    }
  }

  lemma PrunedSubjectMatches(s: Subject, q: string)
    requires PruneSubject(s, q).Some?
    ensures SubjectMatches(PruneSubject(s, q).value, q)
  {
    forall m | m in PruneSubject(s, q).value.modules ensures ModuleMatches(m, q) {
      var o :| o in s.modules && PruneModule(o, q) == Some(m);
      PrunedModuleMatches(o, q);
    }
  }

  /** Every slide left anywhere in a filtered tree matches the term. */
  lemma EverySurvivingSlideMatches(data: seq<Subject>, searchTerm: string)
    requires !Blank(searchTerm)
    ensures forall s, m, c, x ::
      s in FilteredData(data, searchTerm) && m in s.modules && c in m.chapters && x in c.slides ==>
      SlideHit(x, ToLower(searchTerm))
  {
    var q := ToLower(searchTerm);
    var r := FilteredData(data, searchTerm);
    forall s | s in r ensures SubjectMatches(s, q) {
      var o :| o in data && PruneSubject(o, q) == Some(s);
      PrunedSubjectMatches(o, q);
    }
  }

  /** The structural relation between a kept item and its original: same
      id and name, children an order-preserving pruning of the original's. */
  predicate PrunedChapter(c: Chapter, o: Chapter) {
    c.id == o.id && c.name == o.name && Embeds(c.slides, o.slides, Same)
  }

  predicate PrunedModule(m: CourseModule, o: CourseModule) {
    m.id == o.id && m.name == o.name && Embeds(m.chapters, o.chapters, PrunedChapter)
  }

  predicate PrunedSubject(s: Subject, o: Subject) {
    s.id == o.id && s.name == o.name && Embeds(s.modules, o.modules, PrunedModule)
  }

  lemma PruneChapterIsPruning(c: Chapter, q: string)
    ensures PruneChapter(c, q).Some? ==> PrunedChapter(PruneChapter(c, q).value, c)
  {
    FilterMapEmbeds(c.slides, s => if SlideHit(s, q) then Some(s) else None, Same);
  }

  lemma PruneModuleIsPruning(m: CourseModule, q: string)
    ensures PruneModule(m, q).Some? ==> PrunedModule(PruneModule(m, q).value, m)
  {
    forall c | PruneChapter(c, q).Some?
      ensures PrunedChapter(PruneChapter(c, q).value, c)
    {
      PruneChapterIsPruning(c, q);
    }
    FilterMapEmbeds(m.chapters, c => PruneChapter(c, q), PrunedChapter);
  }

  lemma PruneSubjectIsPruning(s: Subject, q: string)
    ensures PruneSubject(s, q).Some? ==> PrunedSubject(PruneSubject(s, q).value, s)
  {
    forall m | PruneModule(m, q).Some?
      ensures PrunedModule(PruneModule(m, q).value, m)
    {
      PruneModuleIsPruning(m, q);
    }
    FilterMapEmbeds(s.modules, m => PruneModule(m, q), PrunedModule);
  }

  /** Every subject is a pruning of itself (the blank-term case). */
  lemma SubjectsPruneThemselves(data: seq<Subject>)
    ensures Embeds(data, data, PrunedSubject)
  {
    forall s | s in data ensures PrunedSubject(s, s) {
      forall m | m in s.modules ensures PrunedModule(m, m) {
        forall c | c in m.chapters ensures PrunedChapter(c, c) {
          EmbedsReflexive(c.slides, Same);
        }
        EmbedsReflexive(m.chapters, PrunedChapter);
      }
      EmbedsReflexive(s.modules, PrunedModule);
    }
    EmbedsReflexive(data, PrunedSubject);
  }

  /** The filtered tree is an order-preserving subtree of the input: it
      only drops items, at every level, and never reorders siblings. */
  lemma FilteredIsSubtree(data: seq<Subject>, searchTerm: string)
    ensures Embeds(FilteredData(data, searchTerm), data, PrunedSubject)
  {
    if Trim(searchTerm) == [] {
      SubjectsPruneThemselves(data);
    } else {
      var q := ToLower(searchTerm);
      forall s | PruneSubject(s, q).Some?
        ensures PrunedSubject(PruneSubject(s, q).value, s)
      {
        PruneSubjectIsPruning(s, q);
      }
      FilterMapEmbeds(data, s => PruneSubject(s, q), PrunedSubject);
    }
  }

  // ---------------------------------------------------------------------
  // Counts
  // ---------------------------------------------------------------------

  function ChapterSlides(c: Chapter): nat {
    |c.slides|
  }

  /** `getSlideCount`: the chapters' slide counts added up. It is zero
      exactly when every chapter is empty, and at least any one chapter's
      count. */
  function SlideCount(chapters: seq<Chapter>): (r: nat)
    ensures r == 0 <==> forall c :: c in chapters ==> c.slides == []
    ensures forall c :: c in chapters ==> |c.slides| <= r
  {
    SumBounds(chapters, ChapterSlides);
    Sum(chapters, ChapterSlides)
  }

  function ModuleChapters(m: CourseModule): nat {
    |m.chapters|
  }

  function ModuleSlides(m: CourseModule): nat {
    SlideCount(m.chapters)
  }

  function SubjectModules(s: Subject): nat {
    |s.modules|
  }

  function SubjectChapters(s: Subject): nat {
    Sum(s.modules, ModuleChapters)
  }

  function SubjectSlides(s: Subject): nat {
    Sum(s.modules, ModuleSlides)
  }

  function TotalModules(data: seq<Subject>): nat {
    Sum(data, SubjectModules)
  }

  function TotalChapters(data: seq<Subject>): nat {
    Sum(data, SubjectChapters)
  }

  function TotalSlides(data: seq<Subject>): nat {
    Sum(data, SubjectSlides)
  }

  /** `courseStats`: the nested `forEach` accumulation of the totals. */
  method CourseStats(data: seq<Subject>) returns (totalSlides: nat, totalModules: nat, totalChapters: nat)
    ensures totalSlides == TotalSlides(data)
    ensures totalModules == TotalModules(data)
    ensures totalChapters == TotalChapters(data)
  {
    totalSlides, totalModules, totalChapters := 0, 0, 0;
    var i := 0;
    while i < |data|
      invariant i <= |data|
      invariant totalModules == Sum(data[..i], SubjectModules)
      invariant totalChapters == Sum(data[..i], SubjectChapters)
      invariant totalSlides == Sum(data[..i], SubjectSlides)
    {
      var subject := data[i];
      totalModules := totalModules + |subject.modules|;
      var j := 0;
      while j < |subject.modules|
        invariant j <= |subject.modules|
        invariant totalChapters == Sum(data[..i], SubjectChapters) + Sum(subject.modules[..j], ModuleChapters)
        invariant totalSlides == Sum(data[..i], SubjectSlides) + Sum(subject.modules[..j], ModuleSlides)
      {
        var mod := subject.modules[j];
        totalChapters := totalChapters + |mod.chapters|;
        var k := 0;
        while k < |mod.chapters|
          invariant k <= |mod.chapters|
          invariant totalSlides ==
            Sum(data[..i], SubjectSlides) + Sum(subject.modules[..j], ModuleSlides) + Sum(mod.chapters[..k], ChapterSlides)
        {
          totalSlides := totalSlides + |mod.chapters[k].slides|;
          SumStep(mod.chapters, k, ChapterSlides);
          k := k + 1;
        }
        assert mod.chapters[..k] == mod.chapters;
        SumStep(subject.modules, j, ModuleChapters);
        SumStep(subject.modules, j, ModuleSlides);
        j := j + 1;
      }
      assert subject.modules[..j] == subject.modules;
      SumStep(data, i, SubjectModules);
      SumStep(data, i, SubjectChapters);
      SumStep(data, i, SubjectSlides);
      i := i + 1;
    }
    assert data[..i] == data;
  }

  /** Filtering never adds slides, chapters or modules to the totals. */
  lemma FilteringNeverAddsItems(data: seq<Subject>, searchTerm: string)
    ensures TotalSlides(FilteredData(data, searchTerm)) <= TotalSlides(data)
    ensures TotalChapters(FilteredData(data, searchTerm)) <= TotalChapters(data)
    ensures TotalModules(FilteredData(data, searchTerm)) <= TotalModules(data)
  {
    var r := FilteredData(data, searchTerm);
    FilteredIsSubtree(data, searchTerm);
    forall c, o | PrunedChapter(c, o) ensures ChapterSlides(c) <= ChapterSlides(o) {
      EmbedsLength(c.slides, o.slides, Same);
    }
    forall m, o | PrunedModule(m, o)
      ensures ModuleSlides(m) <= ModuleSlides(o) && ModuleChapters(m) <= ModuleChapters(o)
    {
      EmbedsSum(m.chapters, o.chapters, PrunedChapter, ChapterSlides, ChapterSlides);
      EmbedsLength(m.chapters, o.chapters, PrunedChapter);
    }
    forall s, o | PrunedSubject(s, o)
      ensures SubjectSlides(s) <= SubjectSlides(o)
      ensures SubjectChapters(s) <= SubjectChapters(o)
      ensures SubjectModules(s) <= SubjectModules(o)
    {
      EmbedsSum(s.modules, o.modules, PrunedModule, ModuleSlides, ModuleSlides);
      EmbedsSum(s.modules, o.modules, PrunedModule, ModuleChapters, ModuleChapters);
      EmbedsLength(s.modules, o.modules, PrunedModule);
    }
    EmbedsSum(r, data, PrunedSubject, SubjectSlides, SubjectSlides);
    EmbedsSum(r, data, PrunedSubject, SubjectChapters, SubjectChapters);
    EmbedsSum(r, data, PrunedSubject, SubjectModules, SubjectModules);
  }
}
