/**
 * The blog index page: a row of category buttons, a "featured" section and an
 * "all posts" section, each card linking to "/blog/<slug>".
 */
module BlogPage {
  import opened Common
  import BlogPostPage

  /** One entry of the index's post list. */
  datatype PostSummary = PostSummary(
    slug: string, title: string, excerpt: string, category: string,
    date: string, image: string, featured: bool)

  const DicasSlug := "dicas-economia-feira"
  const AniversarioSlug := "aniversario-loja-bom-jardim"
  const NovidadesSlug := "novidades-no-ar"

  const CarnesSummary := PostSummary(BlogPostPage.CarnesSlug,
    "Promoção Especial de Carnes Premium",
    "Aproveite descontos incríveis em cortes nobres selecionados",
    "Campanhas", "2026-02-05", "/cards/card_cartao.jpeg", true)
  const MovimenteSummary := PostSummary(BlogPostPage.MovimenteSlug,
    "Movimente-se: Aulas de Ritmos e Ginástica",
    "Participe das nossas aulas gratuitas de atividade física. Toda segunda e quarta!",
    "Eventos", "2026-02-03", "/cards/card_clube.png", true)
  const DicasSummary := PostSummary(DicasSlug,
    "10 Dicas Para Economizar na Feira do Mês",
    "Saiba como planejar suas compras e aproveitar melhor seu orçamento",
    "Dicas", "2026-02-01", "/cards/card_app.jpeg", false)
  const AniversarioSummary := PostSummary(AniversarioSlug,
    "Aniversário da Loja Bom Jardim",
    "Celebre conosco 28 anos servindo a comunidade com ofertas especiais",
    "Eventos", "2026-01-28", "/cards/card_Cartao2.jpeg", false)
  const NovidadesSummary := PostSummary(NovidadesSlug,
    "Novidades no AR: Confira os Lançamentos",
    "Produtos exclusivos chegando nas nossas prateleiras esta semana",
    "Novidades", "2026-01-25", "/cards/card_app_loja.png", false)

  /** The index's post list, in display order. */
  const BlogPosts: seq<PostSummary> :=
    [CarnesSummary, MovimenteSummary, DicasSummary, AniversarioSummary, NovidadesSummary]

  const Categories: seq<string> := ["Todos", "Campanhas", "Eventos", "Dicas", "Novidades"]

  /** `posts.filter(post => post.featured)`. */
  function Featured(posts: seq<PostSummary>): (r: seq<PostSummary>)
    ensures |r| <= |posts|
  {
    if posts == [] then []
    else if posts[0].featured then [posts[0]] + Featured(posts[1..])
    else Featured(posts[1..])
  }

  /** `posts.filter(post => !post.featured)`. */
  function NonFeatured(posts: seq<PostSummary>): (r: seq<PostSummary>)
    ensures |r| <= |posts|
  {
    if posts == [] then []
    else if !posts[0].featured then [posts[0]] + NonFeatured(posts[1..])
    else NonFeatured(posts[1..])
  }

  /** The featured section holds exactly the featured posts of the list. */
  lemma {:induction false} FeaturedMembers(posts: seq<PostSummary>)
    ensures forall p :: p in Featured(posts) <==> p in posts && p.featured
  {
    if posts != [] {
      FeaturedMembers(posts[1..]);
      assert forall p :: p in posts <==> p == posts[0] || p in posts[1..];
    }
  }

  /** The "all posts" section holds exactly the posts of the list that are not featured. */
  lemma {:induction false} NonFeaturedMembers(posts: seq<PostSummary>)
    ensures forall p :: p in NonFeatured(posts) <==> p in posts && !p.featured
  {
    if posts != [] {
      NonFeaturedMembers(posts[1..]);
      assert forall p :: p in posts <==> p == posts[0] || p in posts[1..];
    }
  }

  /** The featured filter distributes over concatenation: it keeps the posts' relative order. */
  lemma {:induction false} FeaturedConcat(a: seq<PostSummary>, b: seq<PostSummary>)
    ensures Featured(a + b) == Featured(a) + Featured(b)
  {
    if a == [] {
      assert a + b == b;
    } else {
      assert (a + b)[0] == a[0];
      assert (a + b)[1..] == a[1..] + b;
      FeaturedConcat(a[1..], b);
    }
  }

  /** The other filter distributes over concatenation too. */
  lemma {:induction false} NonFeaturedConcat(a: seq<PostSummary>, b: seq<PostSummary>)
    ensures NonFeatured(a + b) == NonFeatured(a) + NonFeatured(b)
  {
    if a == [] {
      assert a + b == b;
    } else {
      assert (a + b)[0] == a[0];
      assert (a + b)[1..] == a[1..] + b;
      NonFeaturedConcat(a[1..], b);
    }
  }

  /** Every post lands in exactly one of the two sections, as often as it occurs in the list. */
  lemma {:induction false} SectionsPartition(posts: seq<PostSummary>)
    ensures multiset(Featured(posts)) + multiset(NonFeatured(posts)) == multiset(posts)
    ensures |Featured(posts)| + |NonFeatured(posts)| == |posts|
  {
    if posts != [] {
      SectionsPartition(posts[1..]);
      assert posts == [posts[0]] + posts[1..];
      assert multiset(posts) == multiset{posts[0]} + multiset(posts[1..]);
    }
  }

  /** No post appears in both sections. */
  lemma SectionsDisjoint(posts: seq<PostSummary>)
    ensures multiset(Featured(posts)) * multiset(NonFeatured(posts)) == multiset{}
  {
    FeaturedMembers(posts);
    NonFeaturedMembers(posts);
    var m := multiset(Featured(posts)) * multiset(NonFeatured(posts));
    forall p
      ensures m[p] == 0
    {
      if p.featured {
        assert p !in NonFeatured(posts);
      } else {
        assert p !in Featured(posts);
      }
    }
    assert m == multiset{};
  }

  /** On the page's list, the first two posts are featured. */
  lemma PageFeaturedSection()
    ensures Featured(BlogPosts) == [CarnesSummary, MovimenteSummary]
  {
    var ab := [CarnesSummary] + [MovimenteSummary];
    var abc := ab + [DicasSummary];
    var abcd := abc + [AniversarioSummary];
    assert BlogPosts == abcd + [NovidadesSummary];
    assert Featured(abcd + [NovidadesSummary]) == Featured(abcd) by {
      FeaturedConcat(abcd, [NovidadesSummary]);
    }
    assert Featured(abcd) == Featured(abc) by {
      FeaturedConcat(abc, [AniversarioSummary]);
    }
    assert Featured(abc) == Featured(ab) by {
      FeaturedConcat(ab, [DicasSummary]);
    }
    FeaturedConcat([CarnesSummary], [MovimenteSummary]);
  }

  /** On the page's list, the last three posts are the ones that are not featured. */
  lemma PageRegularSection()
    ensures NonFeatured(BlogPosts) == [DicasSummary, AniversarioSummary, NovidadesSummary]
  {
    var ab := [CarnesSummary] + [MovimenteSummary];
    var cde := [DicasSummary] + [AniversarioSummary] + [NovidadesSummary];
    assert BlogPosts == ab + cde;
    assert NonFeatured(ab + cde) == NonFeatured(cde) by {
      NonFeaturedConcat(ab, cde);
      NonFeaturedConcat([CarnesSummary], [MovimenteSummary]);
    }
    NonFeaturedConcat([DicasSummary] + [AniversarioSummary], [NovidadesSummary]);
    NonFeaturedConcat([DicasSummary], [AniversarioSummary]);
  }

  /** A post card's link: `/blog/${post.slug}`. */
  function PostHref(slug: string): (href: string)
    ensures |href| == 6 + |slug|
    ensures href[..6] == "/blog/" && href[6..] == slug
  {
    "/blog/" + slug
  }

  /** The `[slug]` segment the route "/blog/[slug]" reads from a path, if it matches. */
  function RouteSlug(path: string): (slug: Option<string>)
    ensures slug.Some? ==> path == "/blog/" + slug.value && slug.value != [] && '/' !in slug.value
  {
    if |path| > 6 && path[..6] == "/blog/" && '/' !in path[6..] then
      assert path == path[..6] + path[6..];
      Some(path[6..])
    else None
  }

  /** A link to a non-empty slug without '/' brings the reader to the post page for that slug. */
  lemma HrefRoutesToSlug(slug: string)
    requires slug != [] && '/' !in slug
    ensures RouteSlug(PostHref(slug)) == Some(slug)
  {
  }

  /** A slug the route accepts as one path segment. */
  predicate IsSegment(slug: string) {
    slug != [] && '/' !in slug
  }

  /** Every card on the page links to a path that the post route accepts. */
  lemma PageLinksRoute()
    ensures forall p :: p in BlogPosts ==> RouteSlug(PostHref(p.slug)) == Some(p.slug)
  {
    forall p | p in BlogPosts
      ensures RouteSlug(PostHref(p.slug)) == Some(p.slug)
    {
      assert IsSegment(p.slug) by {
        PageSlugsAreSegments();
      }
      HrefRoutesToSlug(p.slug);
    }
  }

  /** The five slugs of the page are single path segments. */
  lemma PageSlugsAreSegments()
    ensures IsSegment(BlogPostPage.CarnesSlug) && IsSegment(BlogPostPage.MovimenteSlug)
    ensures IsSegment(DicasSlug) && IsSegment(AniversarioSlug) && IsSegment(NovidadesSlug)
  {
  }

  /**
   * A featured card opens its stored article, whose title, category, date and
   * image are the card's own.
   */
  lemma FeaturedCardsResolve()
    ensures forall p :: p in Featured(BlogPosts) ==>
      var post := BlogPostPage.GetPostBySlug(p.slug);
      post != BlogPostPage.FallbackPost && post.title == p.title && post.category == p.category
      && post.date == p.date && post.image == p.image
  {
    FeaturedCards();
    assert BlogPostPage.GetPostBySlug(CarnesSummary.slug) == BlogPostPage.CarnesPost;
    assert BlogPostPage.GetPostBySlug(MovimenteSummary.slug) == BlogPostPage.MovimentePost;
  }

  /** The featured cards are the two campaign posts. */
  lemma FeaturedCards()
    ensures forall p :: p in Featured(BlogPosts) ==> p == CarnesSummary || p == MovimenteSummary
  {
    PageFeaturedSection();
  }

  /** The other three cards open slugs the post page does not hold, and show its fallback record. */
  lemma RegularCardsFallBack()
    ensures forall p :: p in NonFeatured(BlogPosts) ==>
      BlogPostPage.GetPostBySlug(p.slug) == BlogPostPage.FallbackPost
  {
    RegularCardSlugs();
    UnstoredSlugs();
  }

  /** The cards of the "all posts" section carry the three slugs that have no article. */
  lemma RegularCardSlugs()
    ensures forall p :: p in NonFeatured(BlogPosts) ==>
      p.slug == DicasSlug || p.slug == AniversarioSlug || p.slug == NovidadesSlug
  {
    PageRegularSection();
  }

  /** None of the three regular slugs is a key of the post page's table. */
  lemma UnstoredSlugs()
    ensures BlogPostPage.GetPostBySlug(DicasSlug) == BlogPostPage.FallbackPost
    ensures BlogPostPage.GetPostBySlug(AniversarioSlug) == BlogPostPage.FallbackPost
    ensures BlogPostPage.GetPostBySlug(NovidadesSlug) == BlogPostPage.FallbackPost
  {
  }

  /** Category button `index` gets the active style exactly when it is the first. */
  predicate CategoryIsActive(index: nat) {
    index == 0
  }

  /** Only the "Todos" button is styled active. */
  lemma OnlyTodosActive()
    ensures forall i :: 0 <= i < |Categories| ==> (CategoryIsActive(i) <==> Categories[i] == "Todos")
  {
    assert Distinct(Categories);
  }
}
