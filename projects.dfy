/**
 * The featured-project carousel of the projects section (components/projects.tsx). The
 * featured projects are a filter of a fixed list; the carousel shows one of them at a time,
 * moved by next/previous buttons, a dot per project and an 8-second auto-advance, all of
 * which are ignored while a 500 ms transition lock is held.
 */
module Projects {

  datatype Project = Project(
    id: nat,
    title: string,
    technologies: seq<string>,
    featured: bool,
    color: string)

  /** The site's project list (descriptions, images and links are left out). */
  const SiteProjects: seq<Project> := [
    Project(1, "E-Commerce Platform", ["React", "Node.js", "MongoDB", "Stripe"], true, "#3b82f6"),
    Project(2, "AI Content Generator", ["Next.js", "OpenAI", "Tailwind CSS", "Vercel"], true, "#8b5cf6"),
    Project(3, "Real-time Chat Application", ["React", "Socket.io", "WebRTC", "Firebase"], false, "#ec4899"),
    Project(4, "3D Portfolio Website", ["Three.js", "React", "GSAP", "Blender"], true, "#10b981")
  ]

  /** `projects.filter((project) => project.featured)`. */
  function Featured(ps: seq<Project>): (r: seq<Project>)
    ensures |r| <= |ps|
    ensures forall p :: p in r <==> p in ps && p.featured
  {
    if ps == [] then [] else (if ps[0].featured then [ps[0]] else []) + Featured(ps[1..])
  }

  /** The filter keeps relative order: filtering a concatenation concatenates the filtered parts. */
  lemma {:induction false} FeaturedDistributes(a: seq<Project>, b: seq<Project>)
    ensures Featured(a + b) == Featured(a) + Featured(b)
  {
    if a != [] {
      assert (a + b)[1..] == a[1..] + b;
      FeaturedDistributes(a[1..], b);
    } else {
      assert a + b == b;
    }
  }

  /** Filtering twice is filtering once. */
  lemma {:induction false} FeaturedIdempotent(ps: seq<Project>)
    ensures Featured(Featured(ps)) == Featured(ps)
  {
    if ps != [] {
      var head := if ps[0].featured then [ps[0]] else [];
      FeaturedDistributes(head, Featured(ps[1..]));
      FeaturedIdempotent(ps[1..]);
      assert Featured(head) == head by {
        if ps[0].featured { assert head[1..] == []; }
      }
    }
  }

  /** On the site's list, the carousel cycles through projects 1, 2 and 4, in that order. */
  lemma SiteFeatured()
    ensures |Featured(SiteProjects)| == 3
    ensures Featured(SiteProjects)[0].id == 1
    ensures Featured(SiteProjects)[1].id == 2
    ensures Featured(SiteProjects)[2].id == 4
  {
    var ps := SiteProjects;
    assert ps[1..][1..][1..][1..] == [];
  }

  /** `(prev + 1) % featuredProjects.length`. */
  function NextIndex(i: nat, n: nat): (r: nat)
    requires i < n
    ensures r < n
    ensures r == i + 1 || (i == n - 1 && r == 0)
  {
    (i + 1) % n
  }

  /** `(prev - 1 + featuredProjects.length) % featuredProjects.length`; never negative. */
  function PrevIndex(i: nat, n: nat): (r: nat)
    requires i < n
    ensures r < n
    ensures r == i - 1 || (i == 0 && r == n - 1)
  {
    (i - 1 + n) % n
  }

  /** Previous undoes next, and next undoes previous. */
  lemma NextPrevInverse(i: nat, n: nat)
    requires i < n
    ensures PrevIndex(NextIndex(i, n), n) == i
    ensures NextIndex(PrevIndex(i, n), n) == i
  {
  }

  /** The index after k consecutive `next`s. */
  function NextN(i: nat, n: nat, k: nat): (r: nat)
    requires i < n
    ensures r < n
    decreases k
  {
    if k == 0 then i else NextN(NextIndex(i, n), n, k - 1)
  }

  /** Before the end of the list is reached, k `next`s advance the index by exactly k. */
  lemma {:induction false} NextNWithoutWrap(i: nat, n: nat, k: nat)
    requires i + k < n
    ensures NextN(i, n, k) == i + k
    decreases k
  {
    if k > 0 {
      NextNWithoutWrap(i + 1, n, k - 1);
    }
  }

  lemma {:induction false} NextNAdd(i: nat, n: nat, j: nat, k: nat)
    requires i < n
    ensures NextN(i, n, j + k) == NextN(NextN(i, n, j), n, k)
    decreases j
  {
    if j > 0 {
      NextNAdd(NextIndex(i, n), n, j - 1, k);
    }
  }

  /** n consecutive `next`s bring the carousel back to where it started. */
  lemma FullTurn(i: nat, n: nat)
    requires i < n
    ensures NextN(i, n, n) == i
    ensures forall k :: 0 < k < n ==> NextN(i, n, k) != i
  {
    NextNAdd(i, n, n - i - 1, i + 1);
    NextNWithoutWrap(i, n, n - i - 1);
    assert NextN(n - 1, n, i + 1) == NextN(0, n, i);
    NextNWithoutWrap(0, n, i);
    forall k | 0 < k < n ensures NextN(i, n, k) != i {
      if i + k < n {
        NextNWithoutWrap(i, n, k);
      } else {
        NextNAdd(i, n, n - i - 1, k - (n - i - 1));
        assert NextN(n - 1, n, k - (n - i - 1)) == NextN(0, n, k - (n - i));
        NextNWithoutWrap(0, n, k - (n - i));
      }
    }
  }

  /**
   * The prev/next buttons and the dots are rendered only when there is more than one
   * featured project; with a single one, the only remaining mover, the auto-advance,
   * keeps the index where it is.
   */
  predicate ControlsShown(n: nat)
  {
    n > 1
  }

  lemma SingleProjectNeverMoves(i: nat, n: nat)
    requires i < n && !ControlsShown(n)
    ensures NextIndex(i, n) == i && PrevIndex(i, n) == i
  {
  }

  /** The carousel's state cells `currentProject` and `isAnimating` over the featured list. */
  class Carousel {
    const featured: seq<Project>
    var currentProject: nat
    var isAnimating: bool

    /** The render indexes `featuredProjects[currentProject]`. */
    ghost predicate Valid()
      reads this
    {
      currentProject < |featured|
    }

    /** The project on display. */
    function Shown(): (p: Project)
      reads this
      requires Valid()
      ensures p in featured
    {
      featured[currentProject]
    }

    constructor (projects: seq<Project>)
      requires Featured(projects) != []
      ensures Valid() && featured == Featured(projects)
      ensures currentProject == 0 && !isAnimating
    {
      featured := Featured(projects);
      currentProject := 0;
      isAnimating := false;
    }

    /** `nextProject`: ignored while animating; otherwise takes the lock and advances. */
    method Next()
      requires Valid()
      modifies this
      ensures Valid()
      ensures old(isAnimating) ==> isAnimating && currentProject == old(currentProject)
      ensures !old(isAnimating) ==> isAnimating && currentProject == NextIndex(old(currentProject), |featured|)
    {
      if isAnimating {
        return;
      }
      isAnimating := true;
      currentProject := (currentProject + 1) % |featured|;
    }

    /** `prevProject`: ignored while animating; otherwise takes the lock and steps back. */
    method Prev()
      requires Valid()
      modifies this
      ensures Valid()
      ensures old(isAnimating) ==> isAnimating && currentProject == old(currentProject)
      ensures !old(isAnimating) ==> isAnimating && currentProject == PrevIndex(old(currentProject), |featured|)
    {
      if isAnimating {
        return;
      }
      isAnimating := true;
      currentProject := (currentProject - 1 + |featured|) % |featured|;
    }

    /** A click on dot `index` (one dot per featured project): ignored while animating. */
    method SelectDot(index: nat)
      requires Valid() && index < |featured|
      modifies this
      ensures Valid()
      ensures old(isAnimating) ==> isAnimating && currentProject == old(currentProject)
      ensures !old(isAnimating) ==> isAnimating && currentProject == index
    {
      if !isAnimating {
        isAnimating := true;
        currentProject := index;
      }
    }

    /** The 500 ms timeout scheduled by every accepted navigation: the only release of the lock. */
    method TransitionEnded()
      requires Valid()
      modifies this
      ensures Valid()
      ensures !isAnimating && currentProject == old(currentProject)
    {
      isAnimating := false;
    }

    /** The 8000 ms interval: acts as `nextProject` only when not animating. */
    method AutoAdvance()
      requires Valid()
      modifies this
      ensures Valid()
      ensures old(isAnimating) ==> isAnimating && currentProject == old(currentProject)
      ensures !old(isAnimating) ==> isAnimating && currentProject == NextIndex(old(currentProject), |featured|)
    {
      if !isAnimating {
        Next();
      }
    }
  }

  /** Once the lock has cleared, next, the end of its transition, and previous restore the project shown. */
  method NextThenPrev(c: Carousel)
    requires c.Valid() && !c.isAnimating
    modifies c
    ensures c.Valid() && c.isAnimating
    ensures c.currentProject == old(c.currentProject)
  {
    c.Next();
    c.TransitionEnded();
    c.Prev();
    NextPrevInverse(old(c.currentProject), |c.featured|);
  }
}
