# Ana Risorlange supermarket site — a Dafny model of its page logic

This project models the behaviour behind the pages of the Ana Risorlange supermarket site.
The site is a Next.js/React application. The model leaves the markup and styling out and keeps
the data each page holds, the state its React hooks keep, and what its event handlers do to that
state. There is one Dafny module per source file:

- `BlogPostPage` (`blog_post_page.dfy`) models the post page.
  - The mock post table and its fallback record.
  - The line renderer, which splits a post's content on `'\n'` and classifies each line. A line can
    be a heading, a bold-label list item (the regex `- \*\*(.+?)\*\*: (.+)`), a numbered item, a
    bold paragraph, a plain paragraph, or nothing.
- `BlogPage` (`blog_page.dfy`) models the blog index.
  - The featured and "all posts" sections are two filters over one list.
  - The card links are `/blog/<slug>`.
  - The category buttons, of which only the first is styled active.
- `EncartesPage` (`encartes_page.dfy`) models the flyers page as the class `FlyersView`.
  - Its state: the active category tab and the flyer open in the lightbox.
  - The lightbox's "previous" and "next" arrows step through the category's flyers cyclically.
  - The arrows use JavaScript's truncating `%`.
- `LojasPage` (`lojas_page.dfy`) models the store cards.
  - The `tel:` link is built by removing every non-digit of the phone number.
  - The image falls back to a placeholder.
- `TrabalhePage` (`trabalhe_page.dfy`) models the careers page as the class `CareersForm`.
  - Picking a job card sets the form's "position" select.
  - Sending the form replaces it with a thank-you panel.
- `HeaderNav` (`header_nav.dfy`) models the site header as the class `Header`.
  - Active and hover underlines on the navigation entries.
  - The mobile drawer that the menu button toggles and that the backdrop, the close button and
    the drawer links close.
- `AppPage` (`app_page.dfy`) models the single-page shell as the class `App`.
  - A `currentPage` name selects the page component.
  - A loading flag shows a skeleton while a page change settles.
- `Common` (`common.dfy`) holds the pieces the pages share: `Option`, ASCII digits, `Distinct`
  and the `image || "/placeholder.svg"` fallback.

The stores page (components/pages/lojas-page.tsx, lines 34-53) is a static list of two cards; it
has no distance, geolocation or search logic.

## Model

| member | source | states |
|---|---|---|
| Common.ImageSrc | components/pages/lojas-page.tsx:138 | The shown image is the card's own image exactly when that image is not the empty string, and "/placeholder.svg" otherwise; it is never empty. |
| BlogPostPage.GetPostBySlug | components/pages/blog-post-page.tsx:14-74 | The corrected lookup (own properties only): it always returns a post record, and the fallback record exactly for the slugs other than the two stored ones. Line 67 as written is GetPostBySlugAsWritten. |
| BlogPostPage.StoredSlugsGiveStoredPosts | components/pages/blog-post-page.tsx:15-65 | The two stored slugs return their own title, category and content. |
| BlogPostPage.OtherSlugsGiveFallback | components/pages/blog-post-page.tsx:67-73 | Any other slug returns "Post não encontrado", category "Geral", content "Conteúdo não disponível". |
| BlogPostPage.GetPostBySlugAsWritten | components/pages/blog-post-page.tsx:67 | `posts[slug] \|\| fallback` on an object literal yields an inherited `Object.prototype` member exactly for the inherited names. |
| BlogPostPage.AsWrittenConstructorIsNoPost | components/pages/blog-post-page.tsx:67-73 | The slug "constructor" yields the inherited function rather than a post, while the corrected lookup gives the fallback record. |
| BlogPostPage.AsWrittenAgreesOffInheritedNames | components/pages/blog-post-page.tsx:67-73 | Off the inherited names, the lookup as written and the corrected lookup agree. |
| BlogPostPage.TrimStart | components/pages/blog-post-page.tsx:169 | The result is a suffix of the line; everything removed is JavaScript white space; the result does not start with white space. |
| BlogPostPage.TrimEnd | components/pages/blog-post-page.tsx:169 | The result is a prefix of the line; everything removed is white space; the result does not end with white space. |
| BlogPostPage.TrimEmptyIffBlank | components/pages/blog-post-page.tsx:169-172 | `line.trim()` is falsy exactly when the line is made only of white space and line terminators. |
| BlogPostPage.IndexOf | components/pages/blog-post-page.tsx:164 | `indexOf` is -1 exactly when the character is absent; otherwise it gives the first position that holds the character. |
| BlogPostPage.Split | components/pages/blog-post-page.tsx:143 | `split('\n')` always yields at least one line. |
| BlogPostPage.JoinSplit | components/pages/blog-post-page.tsx:143 | Joining the split lines with '\n' gives back the content. |
| BlogPostPage.SplitJoin | components/pages/blog-post-page.tsx:143 | Splitting lines that hold no '\n', after joining them, gives the same lines. |
| BlogPostPage.SplitSingleLine | components/pages/blog-post-page.tsx:143 | A text without '\n' is a single line. |
| BlogPostPage.SplitCons | components/pages/blog-post-page.tsx:143 | A leading '\n' starts a new line; any other first character starts the first line. |
| BlogPostPage.SplitConcat | components/pages/blog-post-page.tsx:143 | Splitting `a + "\n" + b` gives the lines of `a` followed by the lines of `b`. |
| BlogPostPage.SplitLength | components/pages/blog-post-page.tsx:143 | There is one more line than there are '\n' characters. |
| BlogPostPage.SplitLinesHaveNoNewline | components/pages/blog-post-page.tsx:143 | No line holds a '\n'. |
| BlogPostPage.LeadingDigits | components/pages/blog-post-page.tsx:163 | The count covers only ASCII digits and stops at the first non-digit or at the end. |
| BlogPostPage.DotRun | components/pages/blog-post-page.tsx:154 | The greedy `(.+)` takes every following character up to the first line terminator. |
| BlogPostPage.LazyLabel | components/pages/blog-post-page.tsx:154 | The lazy `(.+?)` ends at the first position, within a run of non-terminators, where "**: " and one more character follow; when it fails, no such position exists. |
| BlogPostPage.StripBold | components/pages/blog-post-page.tsx:167 | `replace(/\*\*/g, '')` leaves no "**" and never lengthens the text. |
| BlogPostPage.StripBoldKeepsNonStars | components/pages/blog-post-page.tsx:167 | Removing the "**" pairs keeps every other character, in order. |
| BlogPostPage.StripBoldIdentity | components/pages/blog-post-page.tsx:167 | A text without "**" is unchanged. |
| BlogPostPage.StripBoldStarRun | components/pages/blog-post-page.tsx:167 | The global replace removes a run of stars two at a time from the left: an even run vanishes and an odd run leaves exactly one '*' ("***" becomes "*"). |
| BlogPostPage.RenderLine | components/pages/blog-post-page.tsx:144-172 | A heading's and a numbered item's text are shorter than the line; a bold-label item's two parts and 8 separator characters fit in the line; a bold paragraph holds no "**". |
| BlogPostPage.LabelMatchLength | components/pages/blog-post-page.tsx:154-158 | The regex's two groups and its 8 literal characters fit in the line. |
| BlogPostPage.LabelMatchNone | components/pages/blog-post-page.tsx:154-155 | Without a "**: " separator the regex does not match. |
| BlogPostPage.RenderContent | components/pages/blog-post-page.tsx:143-173 | One block per line, in line order, each rendered by the line rule; there are as many blocks as '\n' characters plus one. |
| BlogPostPage.RenderLines | components/pages/blog-post-page.tsx:143 | `map` renders each line in place. |
| BlogPostPage.RenderContentConcat | components/pages/blog-post-page.tsx:143 | Rendering text joined by '\n' renders each side on its own and concatenates the blocks. |
| BlogPostPage.HeadingPrefixesDisjoint | components/pages/blog-post-page.tsx:144-151 | No line starts with two of "# ", "## ", "### ". |
| BlogPostPage.RenderLineHeadings | components/pages/blog-post-page.tsx:144-151 | A line renders as h2, h3 or h4 if and only if it starts with "# ", "## " or "### " respectively. |
| BlogPostPage.RenderLineItems | components/pages/blog-post-page.tsx:153-164 | A line is a bold-label item iff it starts with "- **" and the regex matches. It is a numbered item iff it starts with digits followed by ". ". A "- **" line the regex rejects is a plain paragraph. |
| BlogPostPage.RenderLineParagraphs | components/pages/blog-post-page.tsx:166-172 | A line is a bold paragraph iff it starts and ends with "**"; it renders nothing iff it is blank. |
| BlogPostPage.FirstCharacter | components/pages/blog-post-page.tsx:144-169 | The first character each rule inspects: '#', '-', '*', a digit, or white space. |
| BlogPostPage.HeadingText | components/pages/blog-post-page.tsx:144-151 | A heading's text is the line without its prefix. |
| BlogPostPage.NumberedItemText | components/pages/blog-post-page.tsx:163-164 | A numbered item's line is its digits, then ". ", then the item's text. |
| BlogPostPage.NumberedLineShape | components/pages/blog-post-page.tsx:163-164 | On a numbered line the first space is the one right after the dot. |
| BlogPostPage.FirstSpaceAfterNumber | components/pages/blog-post-page.tsx:164 | `indexOf(' ')` on a numbered line is the digit count plus one. |
| BlogPostPage.FirstOccurrence | components/pages/blog-post-page.tsx:164 | A character at `k` that does not occur earlier is what `indexOf` finds. |
| BlogPostPage.ParagraphText | components/pages/blog-post-page.tsx:166-171 | A bold paragraph keeps the line's characters except '*', with no "**" left. A plain paragraph is its line verbatim, and the line is not blank. |
| BlogPostPage.LabeledItemShape | components/pages/blog-post-page.tsx:153-160 | A bold-label item is the line "- **" + bold + "**: " + body, with both parts non-empty and bold the shortest such label. |
| BlogPostPage.RenderLineLabeled | components/pages/blog-post-page.tsx:153-160 | A bold-label item carries the regex's two capture groups. |
| BlogPostPage.LabelMatchShape | components/pages/blog-post-page.tsx:154 | On a line without terminators, the match's groups rebuild the whole line, and no separator occurs inside the label. |
| BlogPostPage.MatchAtStart | components/pages/blog-post-page.tsx:153-155 | On a "- **" line without terminators, the leftmost match starts at position 0. |
| BlogPostPage.LabeledItemOfShape | components/pages/blog-post-page.tsx:153-160 | Every line "- **" + bold + "**: " + body with non-empty parts and no earlier separator renders as that bold-label item. |
| BlogPostPage.MatchOfShape | components/pages/blog-post-page.tsx:154 | Such a line matches at its start with exactly those two groups. |
| BlogPostPage.MatchAtParts | components/pages/blog-post-page.tsx:154 | Once the lazy group's length is known, the groups are the label and the greedy run that follows the separator. |
| BlogPostPage.DotRunToEnd | components/pages/blog-post-page.tsx:154 | On a line without terminators the greedy group runs to the end of the line. |
| BlogPostPage.LazyLabelOfShape | components/pages/blog-post-page.tsx:154 | The lazy group stops at the first separator. |
| BlogPostPage.UnclosedBoldIsPlain | components/pages/blog-post-page.tsx:166-170 | A line that opens with "**" but does not end with '*' renders as a plain paragraph. |
| BlogPostPage.SegundasLineIsPlain | components/pages/blog-post-page.tsx:51 | The schedule line, which ends in two spaces, renders as a plain paragraph with its asterisks shown, not as bold. |
| BlogPage.Featured | components/pages/blog-page.tsx:138 | The featured section is no longer than the list; its members and order are stated by FeaturedMembers and FeaturedConcat. |
| BlogPage.NonFeatured | components/pages/blog-page.tsx:204 | The "all posts" section is no longer than the list; see NonFeaturedMembers and NonFeaturedConcat. |
| BlogPage.FeaturedMembers | components/pages/blog-page.tsx:138 | A post is in the featured section iff it is in the list and featured. |
| BlogPage.NonFeaturedMembers | components/pages/blog-page.tsx:204 | A post is in the "all posts" section iff it is in the list and not featured. |
| BlogPage.FeaturedConcat | components/pages/blog-page.tsx:138 | The featured filter distributes over concatenation, so it keeps the list's order. |
| BlogPage.NonFeaturedConcat | components/pages/blog-page.tsx:204 | The other filter distributes over concatenation too. |
| BlogPage.SectionsPartition | components/pages/blog-page.tsx:138-204 | The two sections together are a permutation of the list (as multisets); their lengths add up to the list's. |
| BlogPage.SectionsDisjoint | components/pages/blog-page.tsx:138-204 | No post appears in both sections. |
| BlogPage.PageFeaturedSection | components/pages/blog-page.tsx:10-56 | On the page's data, the featured section is the meat promotion, then the exercise classes. |
| BlogPage.PageRegularSection | components/pages/blog-page.tsx:10-56 | On the page's data, the "all posts" section is the other three posts, in list order. |
| BlogPage.PostHref | components/pages/blog-page.tsx:148 | A card's link is "/blog/" followed by the slug. |
| BlogPage.RouteSlug | components/pages/blog-page.tsx:148 | The post route (app/blog/[slug]/page.tsx, lines 3-4) that these links reach accepts "/blog/" followed by one non-empty segment without '/', and hands that segment on. |
| BlogPage.HrefRoutesToSlug | components/pages/blog-page.tsx:148 | A link to a single-segment slug routes back to that slug. |
| BlogPage.PageLinksRoute | components/pages/blog-page.tsx:214 | Every card on the page links to a path the post route accepts, carrying the card's slug. |
| BlogPage.PageSlugsAreSegments | components/pages/blog-page.tsx:10-56 | The five slugs are single, non-empty path segments. |
| BlogPage.FeaturedCardsResolve | components/pages/blog-page.tsx:148 | Each featured card opens its stored article, whose title, category, date and image equal the card's. |
| BlogPage.FeaturedCards | components/pages/blog-page.tsx:138 | The featured cards are the two campaign posts. |
| BlogPage.RegularCardsFallBack | components/pages/blog-page.tsx:214 | Every card of the "all posts" section opens a slug the post page does not hold, so it shows the fallback record. |
| BlogPage.RegularCardSlugs | components/pages/blog-page.tsx:204 | The "all posts" cards carry the three slugs without an article. |
| BlogPage.UnstoredSlugs | components/pages/blog-post-page.tsx:67-73 | Those three slugs give the fallback record. |
| BlogPage.OnlyTodosActive | components/pages/blog-page.tsx:101-109 | The `index === 0` test styles exactly the "Todos" button active. |
| EncartesPage.TabsMatchCatalog | components/pages/encartes-page.tsx:8-32 | Every tab id is a key of the flyer table and every key a tab id; every list is non-empty. |
| EncartesPage.FlyerIdsUnique | components/pages/encartes-page.tsx:15-32 | No two flyers of the catalog share an id. |
| EncartesPage.FlyerImagesShown | components/pages/encartes-page.tsx:94 | Every flyer has an image, so neither the card nor the lightbox (line 140) shows the placeholder. |
| EncartesPage.CategoryFlyersInCatalog | components/pages/encartes-page.tsx:15-32 | Each category's flyers are flyers of the catalog. |
| EncartesPage.CategoryIdsUnique | components/pages/encartes-page.tsx:15-32 | Within each category the ids are distinct. |
| EncartesPage.FindIndex | components/pages/encartes-page.tsx:156 | `findIndex` returns the first position holding the id, and -1 exactly when no flyer has it. |
| EncartesPage.FindIndexFrom | components/pages/encartes-page.tsx:156 | The same search, from a given position on. |
| EncartesPage.FindIndexOfMember | components/pages/encartes-page.tsx:156 | With distinct ids, the flyer at position j is found at position j. |
| EncartesPage.JsRem | components/pages/encartes-page.tsx:157 | JavaScript's truncating `%`: the remainder is non-negative for a non-negative dividend and non-positive for a non-positive one, is smaller than the divisor in magnitude, and satisfies `a == n * q + r` for the quotient `q` rounded toward zero (JsQuot); for a non-negative dividend it is the mathematical remainder. |
| EncartesPage.JsRemUnique | components/pages/encartes-page.tsx:157 | Any quotient and remainder with `a == n * q + r`, the dividend's sign and magnitude below `n` are the truncated quotient and JsRem: the characterisation fixes the result. |
| EncartesPage.NextIndex | components/pages/encartes-page.tsx:169 | "Next" moves one position forward and wraps from the last flyer to the first; from "not found" it gives 0. |
| EncartesPage.PrevIndex | components/pages/encartes-page.tsx:157 | "Previous" moves one position back and wraps from the first flyer to the last; from "not found" it gives the second-to-last position. |
| EncartesPage.PrevNextInverse | components/pages/encartes-page.tsx:154-171 | "Next" and "previous" undo each other on every valid position. |
| EncartesPage.NextTimes | components/pages/encartes-page.tsx:169 | Repeated "next" presses stay within the list. |
| EncartesPage.NextTimesAdd | components/pages/encartes-page.tsx:169 | Pressing "next" a times and then b times is pressing it a + b times. |
| EncartesPage.NextTimesForward | components/pages/encartes-page.tsx:169 | Before the end of the list, k presses advance the position by k. |
| EncartesPage.NextTimesCycle | components/pages/encartes-page.tsx:169 | Pressing "next" once per flyer returns to the starting position. |
| EncartesPage.NextFlyer | components/pages/encartes-page.tsx:166-171 | The "next" arrow always selects a flyer of the current category. |
| EncartesPage.PrevFlyer | components/pages/encartes-page.tsx:154-159 | The "previous" arrow always selects a flyer of the current category. |
| EncartesPage.PrevNextFlyerInverse | components/pages/encartes-page.tsx:154-171 | On a category's flyers, the two arrows are inverse to each other. |
| EncartesPage.NextFlyerTimesAt | components/pages/encartes-page.tsx:166-171 | k presses of "next" on flyers land where k index steps land. |
| EncartesPage.NextFlyerCycle | components/pages/encartes-page.tsx:166-171 | Pressing "next" once per flyer of the category returns to the flyer first opened. |
| EncartesPage.NextFromOutsideIsFirst | components/pages/encartes-page.tsx:168-170 | An open flyer that is not in the current list is not found, and "next" shows the first flyer. |
| EncartesPage.FlyersView.CurrentFlyers | components/pages/encartes-page.tsx:38 | The cards on display are never empty and have distinct ids. |
| EncartesPage.FlyersView.constructor | components/pages/encartes-page.tsx:35-36 | Starts on the "hortifruti" tab with no lightbox. |
| EncartesPage.FlyersView.ClickTab | components/pages/encartes-page.tsx:54 | A tab click shows that tab's flyers and leaves the open flyer as it was. |
| EncartesPage.FlyersView.ClickCard | components/pages/encartes-page.tsx:90 | A card click opens that flyer in the lightbox. |
| EncartesPage.FlyersView.ShowPrevious | components/pages/encartes-page.tsx:154-159 | The selection becomes PrevFlyer of the open flyer, a flyer of the current tab. |
| EncartesPage.FlyersView.ShowNext | components/pages/encartes-page.tsx:166-171 | The selection becomes NextFlyer of the open flyer, a flyer of the current tab. |
| EncartesPage.FlyersView.ClickLightbox | components/pages/encartes-page.tsx:117-171 | The backdrop and the close button clear the selection; a click on the content stops at the content box; the arrows step back and forth. |
| LojasPage.StripNonDigits | components/pages/lojas-page.tsx:156 | `replace(/\D/g, '')` never lengthens the text; StripGivesDigits and StripCounts state that exactly the digits remain. |
| LojasPage.TelHref | components/pages/lojas-page.tsx:156 | The link is "tel:" followed by digits only. |
| LojasPage.StripGivesDigits | components/pages/lojas-page.tsx:156 | The stripped text consists of ASCII digits. |
| LojasPage.StripConcat | components/pages/lojas-page.tsx:156 | Stripping distributes over concatenation. |
| LojasPage.StripCounts | components/pages/lojas-page.tsx:156 | Stripping keeps every digit, as often as it occurs, and drops everything else. |
| LojasPage.StripIdentityIffDigits | components/pages/lojas-page.tsx:156 | Stripping leaves a text unchanged iff it is all digits. |
| LojasPage.StripIdempotent | components/pages/lojas-page.tsx:156 | Stripping twice is stripping once. |
| LojasPage.StripAppendDigits | components/pages/lojas-page.tsx:156 | Appending digits appends them to the result. |
| LojasPage.StripNoDigits | components/pages/lojas-page.tsx:156 | A text without digits strips to nothing. |
| LojasPage.StripAppendNoDigits | components/pages/lojas-page.tsx:156 | Appending a text without digits changes nothing. |
| LojasPage.StripSeparatorDigits | components/pages/lojas-page.tsx:156 | Separators between digit groups vanish. |
| LojasPage.StripPhoneHead | components/pages/lojas-page.tsx:39 | "(AA) B" strips to "AAB". |
| LojasPage.StripPhoneTail | components/pages/lojas-page.tsx:39 | " CCCC.DDDD" after a prefix strips to "CCCCDDDD" after the prefix's digits. |
| LojasPage.StripPhonePattern | components/pages/lojas-page.tsx:39 | A phone written "(AA) B CCCC.DDDD" strips to "AABCCCCDDDD". |
| LojasPage.TelHrefOfPattern | components/pages/lojas-page.tsx:156 | The link of such a phone is "tel:AABCCCCDDDD". |
| LojasPage.BomJardimTel | components/pages/lojas-page.tsx:39 | The Bom Jardim card calls tel:85999960267. |
| LojasPage.BonsucessoTel | components/pages/lojas-page.tsx:48 | The Bonsucesso card calls tel:85996602873. |
| LojasPage.StoreTelHrefs | components/pages/lojas-page.tsx:34-53 | The two store cards, in order, call those two numbers. |
| LojasPage.StoreImagesShown | components/pages/lojas-page.tsx:138 | Both store cards show their own image, never the placeholder. |
| TrabalhePage.OptionsDistinct | components/pages/trabalhe-page.tsx:229-235 | No two options share a value; the job titles are distinct. |
| TrabalhePage.SelectOptionsListed | components/pages/trabalhe-page.tsx:229-235 | The six option values, in order. |
| TrabalhePage.JobTitlesListed | components/pages/trabalhe-page.tsx:12-41 | The four titles, in order. |
| TrabalhePage.ListedOptionsDistinct | components/pages/trabalhe-page.tsx:229-235 | The six option values are pairwise different. |
| TrabalhePage.AtMostOneHighlighted | components/pages/trabalhe-page.tsx:110 | At most one card has the highlighted border. |
| TrabalhePage.SelectValue | components/pages/trabalhe-page.tsx:224 | `selectedJob \|\| ""`: with no selection the select shows the placeholder; otherwise it shows the selected value. |
| TrabalhePage.SelectValueIsOption | components/pages/trabalhe-page.tsx:224-235 | A selection from a card or from the select always shows as one of the options. |
| TrabalhePage.CareersForm.constructor | components/pages/trabalhe-page.tsx:53-54 | The form is shown and no job is picked: no card is highlighted and the select shows the placeholder. |
| TrabalhePage.CareersForm.HandleSubmit | components/pages/trabalhe-page.tsx:56-59 | The form is marked sent and the selection is kept. |
| TrabalhePage.CareersForm.PressSend | components/pages/trabalhe-page.tsx:253-260 | The form is sent iff the text inputs are valid and the required select is not on the placeholder. |
| TrabalhePage.CareersForm.StartNewApplication | components/pages/trabalhe-page.tsx:166 | The form comes back with the same job picked. |
| TrabalhePage.CareersForm.PickJob | components/pages/trabalhe-page.tsx:114 | The clicked job is picked: exactly its card is highlighted and the select shows its title (also the "Candidatar-se" button, lines 130-134). |
| TrabalhePage.CareersForm.ChangeSelect | components/pages/trabalhe-page.tsx:225 | The chosen option's value becomes the selection. |
| HeaderNav.NavIdsDistinct | components/header-nav.tsx:10-18 | No two entries share an id. |
| HeaderNav.SameIdSameEntry | components/header-nav.tsx:10-18 | Entries with the same id are the same entry. |
| HeaderNav.ActiveEntries | components/header-nav.tsx:56-64 | Some entry is active iff the path is one of the ids, and then exactly one is. |
| HeaderNav.HoverUnderlines | components/header-nav.tsx:73 | At most one entry shows the hover underline, and never the active one. |
| HeaderNav.MenuStep | components/header-nav.tsx:113-151 | The menu button toggles the drawer; the backdrop, the close button and a drawer link close it. |
| HeaderNav.MenuParity | components/header-nav.tsx:113-220 | From the closed start, the drawer is open iff the menu button was pressed an odd number of times since the last closing click. |
| HeaderNav.Header.constructor | components/header-nav.tsx:21-22 | The drawer is closed, nothing is hovered and no hover underline is shown. |
| HeaderNav.Header.Click | components/header-nav.tsx:113-151 | One click steps the drawer by MenuStep; the backdrop, close button and links exist only while the drawer is rendered (line 124). |
| HeaderNav.Header.FollowDrawerLink | components/header-nav.tsx:219-231 | A drawer link closes the drawer and moves to the entry's path, where exactly that entry is active. |
| HeaderNav.Header.MouseEnter | components/header-nav.tsx:54 | The entry becomes the hovered tab; exactly it shows the hover underline, unless it is the active one. |
| HeaderNav.Header.MouseLeave | components/header-nav.tsx:55 | No tab is hovered and no hover underline is shown. |
| AppPage.RenderPage | app/page.tsx:36-51 | A known page name renders its component; any other name renders the home page. |
| AppPage.PageName | app/page.tsx:37-47 | Every component has a name under which the switch renders it. |
| AppPage.RenderPageName | app/page.tsx:37-47 | Rendering a component's page name renders that component: every page is reachable. |
| AppPage.PageNameOfRender | app/page.tsx:36-51 | On the known names the switch is one-to-one; an unknown name renders what "home" renders. |
| AppPage.RoutesInjective | app/page.tsx:37-47 | No two known names render the same component. |
| AppPage.App.Shown | app/page.tsx:59-78 | The skeleton shows iff the page is loading; otherwise the routed page shows. |
| AppPage.App.constructor | app/page.tsx:16-17 | The shell starts on "home", loading, so it shows the skeleton. |
| AppPage.App.SetCurrentPage | app/page.tsx:27-34 | A new page name turns the loading flag on, so the skeleton shows. Setting the same name changes nothing, because the effect does not rerun. |
| AppPage.App.FinishLoading | app/page.tsx:21-23 | A pending timer fires: loading ends and the routed page shows. |

## Left out

- Timers: `setTimeout`/`clearTimeout` in app/page.tsx are not modelled as time. `AppPage.App.FinishLoading` stands for a timer firing. A timer cleared by a newer page change is simply never fired.
- Effects that only touch the DOM are left out: `scrollIntoView`, `preventDefault`, animation (framer-motion) and styling. `stopPropagation` is kept only through its effect on state: a click on the lightbox content or on a "Candidatar-se" button does nothing more.
- TrabalhePage.CareersForm.PressSend: the browser's validation of the name, e-mail and phone inputs is a parameter (`inputsValid`); the inputs' values are not modelled.
- Dates and `toLocaleDateString` are kept as opaque strings.
- The post page's share buttons and layout are left out; only the lookup and the content renderer are modelled.
- The router's URL decoding of the `[slug]` parameter is not modelled; BlogPage.RouteSlug takes the path as it is.
- BlogPostPage.LabeledItemShape: the shape of a bold-label line is proved only for lines without line terminators. After `split('\n')` a line can still hold '\r', U+2028 or U+2029; there the regex's `.` stops early, and only RenderLineLabeled describes the result.
- BlogPostPage.SegundasLineIsPlain and the other lemmas about stored content address single lines. The full rendering of the two stored articles is not computed.
- components/header.tsx, which calls `setCurrentPage`, is not part of this model; AppPage.App.SetCurrentPage is called with any string.
- The pathname comes from the Next.js router, outside the header; it is a parameter of the header's members.
- The hero carousel, the map controller, the footer, next.config.mjs and the static pages (home, institucional, contato, parceiros) are not part of this model.

## Findings

| source | as written | input that shows it | evidently intended | confidence | as-written member | corrected member |
|---|---|---|---|---|---|---|
| components/pages/blog-post-page.tsx:67-73 | `posts[slug] \|\| fallback` indexes a plain object literal, so a slug naming an inherited `Object.prototype` member yields that member (a truthy function) instead of a post | the path `/blog/constructor` | an own-property lookup that falls back to "Post não encontrado" for every slug not stored | not executed | BlogPostPage.AsWrittenConstructorIsNoPost | BlogPostPage.GetPostBySlug |
