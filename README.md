# KSeF knowledge portal — a Dafny model of its core

The KSeF portal is a knowledge base about Poland's national e-invoicing system
(Krajowy System e-Faktur). It has a Strapi back end that stores articles and a
graph of typed "knowledge edges" between them, and a Next.js front end with the
article listing, article pages, a knowledge map, a KSeF cost calculator and
several gamification widgets.

This project models the small, deterministic logic underneath that
application, one Dafny module per source file:

- **Back end**
  - the knowledge-edge generator script (`edge_generator.dfy`): seven passes over a set of used directed pairs, plus the SQL it writes;
  - the in-memory part of the article graph service: adjacency, degrees, breadth-first paths, neighbourhoods, the community skeleton and recommendations (`graph_service.dfy`, `graph_subgraph.dfy`, `graph_communities.dfy`, `graph_recommendations.dfy`);
  - the graph controller's validation and reply shaping (`graph_controller.dfy`);
  - the self-loop checks on edges (`lifecycles.dfy`);
  - the Markdown-to-Blocks migration (`markdown_blocks.dfy`);
  - the SEO audit rubric (`seo_check.dfy`);
  - the audio-generation script (`generate_audio.dfy`);
  - the article import transform (`import_articles.dfy`).
- **Front-end libraries**
  - the cost calculator (`calculator.dfy`);
  - the reading and bookmark store (`user_storage.dfy`);
  - the Strapi record mapping (`strapi_client.dfy`);
  - the blog helpers, the gamification store and the university features (`blog_helpers.dfy`, `viral_growth.dfy`, `university_features.dfy`).
- **Front-end components**
  - the filter → sort → paginate listing and the filter sidebars (`article_listing.dfy`, `sidebar_filters.dfy`);
  - the knowledge map search and view, and the mind map (`knowledge_map_search.dfy`, `knowledge_map_view.dfy`, `mind_map_view.dfy`);
  - the related-articles box (`related_articles.dfy`);
  - the calculator wizard (`calculator_wizard.dfy`);
  - the share section and the two countdowns (`viral_share.dfy`, `countdown_timer.dfy`, `landing_countdown.dfy`);
  - the audio player (`audio_player.dfy`);
  - the article renderer, the bookmark button and the comments (`article_content.dfy`, `bookmark_button.dfy`, `article_comments.dfy`).

Some modules are shared:
- `wrappers.dfy`: Option and Result;
- `collections.dfy`: filter, toggle, distinct keys, counts;
- `ordering.dfy`: the sort behind `Array.prototype.sort`;
- `text.dfy`: trim, lower-case, split, words, `parseInt`, `String(n)`, `padStart`;
- `js_number.dfy`: `Math.round` and the truncating `%`;
- `py_random.dfy`: `randint`, `uniform`, `choice`, `shuffle` and `sample` driven by injected draws.

The models take the form of their sources:
- Pure helpers become functions with contracts and lemmas.
- Code that updates state becomes a method or a class:
  - the edge passes, breadth-first search and community passes;
  - the Markdown parser and the counters of the scripts;
  - the browser-storage stores and the component state behind React hooks.

Every such method is proved against a specification function or predicate, and lemmas relate the operations to each other. Examples: toggling twice restores the list; marking read is idempotent; the reading history keeps at most twenty entries, newest first.

Inputs that the code reads from outside become parameters:
- database rows;
- the clock (a day number or epoch milliseconds);
- the browser's storage, held as a field of a class;
- random draws.

Numbers are exact: Dafny `real` for JavaScript numbers where only their value matters; whole hundredths for the generator's rounded weights.

To verify: `dafny verify *.dfy`

## Model

| member | source | states |
|---|---|---|
| Lifecycles.BeforeCreate | backend/dist/src/api/knowledge-edge/content-types/knowledge-edge/lifecycles.js:62-70 | creation is refused, with the self-loop message, exactly when the source and target relations are equal |
| Lifecycles.BeforeUpdate | backend/dist/src/api/knowledge-edge/content-types/knowledge-edge/lifecycles.js:74-82 | an update is refused exactly when both relations are present (truthy) and equal; partial updates pass |
| Lifecycles.UpdateIsLaxer | backend/dist/src/api/knowledge-edge/content-types/knowledge-edge/lifecycles.js:62-82 | whatever an update refuses a create refuses too; data without relations is refused on create and accepted on update; data with one relation passes both |
| Lifecycles.AfterChange | backend/dist/src/api/knowledge-edge/content-types/knowledge-edge/lifecycles.js:13-41 | after a create or update exactly one degree-count update runs and no failure escapes |
| Lifecycles.AfterDelete | backend/dist/src/api/knowledge-edge/content-types/knowledge-edge/lifecycles.js:45-58 | after a delete the degree update runs first, PageRank runs exactly when the first call succeeded, nothing else runs, and no failure escapes |
| GraphRecommendations.Present | backend/dist/src/api/article/services/graph.js:201-203 | the populated edge targets: an id is kept exactly when some edge carries it as its target, and none are added |
| GraphRecommendations.Recommendations | backend/dist/src/api/article/services/graph.js:186-223 | at most `limit` ids, each a direct edge target or a same-category article; a NaN limit gives an empty list |
| GraphRecommendations.DirectFirst | backend/dist/src/api/article/services/graph.js:201-222 | the direct targets come first and in the database's order; same-category articles are used only when the article was found and the direct targets fall short of the limit |
| JsNumber.Trunc | frontend/components/countdown-timer.tsx:26-28 | truncation toward zero, as JavaScript's remainder uses it: the floor for non-negative numbers, the negated floor of the magnitude otherwise |
| JsNumber.JsMod | frontend/components/audio-player.tsx:132 | JavaScript's `%` by a positive divisor; for a non-negative number the remainder lies below the divisor and is not negative |
| JsNumber.RemainderBounds | frontend/components/countdown-timer.tsx:26-28 | the bounds of the truncating remainder of a non-negative number |
| JsNumber.JsRound | frontend/components/landing/Countdown.tsx:152-158 | `Math.round`: the result lies within one half of the number, halves rounding up |
| GraphService.Targets | backend/dist/src/api/article/services/graph.js:251-259 | the out-list of a node only names known articles |
| GraphService.Sources | backend/dist/src/api/article/services/graph.js:251-259 | the in-list of a node only names known articles |
| GraphService.BuildGraphData | backend/dist/src/api/article/services/graph.js:227-267 | one node per distinct article id, in order; adjacency and out-links hold, per source, the targets of exactly the edges whose two ids are truthy known articles; in-links hold the matching sources |
| GraphService.InitNodes | backend/dist/src/api/article/services/graph.js:244-249 | every article id gets a node and an empty list in each map |
| GraphService.LinkEdges | backend/dist/src/api/article/services/graph.js:251-259 | after the edge loop, adjacency equals out-links and both hold exactly the recorded edges, in edge order |
| GraphService.LinkOne | backend/dist/src/api/article/services/graph.js:252-258 | one edge extends its source's adjacency and out-links and its target's in-links when both ends are known articles, and changes nothing otherwise |
| GraphService.TargetsSnoc | backend/dist/src/api/article/services/graph.js:254-256 | appending an edge appends its target to its source's out-list exactly when the edge is recorded |
| GraphService.SourcesSnoc | backend/dist/src/api/article/services/graph.js:254-257 | appending an edge appends its source to its target's in-list exactly when the edge is recorded |
| GraphService.OutMapClosed | backend/dist/src/api/article/services/graph.js:254-258 | the built maps link only known articles to known articles |
| GraphService.OutTotalIsInTotal | backend/dist/src/api/article/services/graph.js:251-259 | summed over all nodes, out-links and in-links have the same total, which is the number of recorded edges |
| GraphService.CountAtAll | backend/dist/src/api/article/services/graph.js:254 | when every edge joins two truthy known articles, every edge is recorded |
| GraphService.UpdateDegreeCounts | backend/dist/src/api/article/services/graph.js:162-179 | one row per node in node order, with inDegree the length of its in-links, outDegree the length of its out-links, and totalDegree their sum |
| GraphService.DegreeTotalsAgree | backend/dist/src/api/article/services/graph.js:162-179 | the written in-degrees and out-degrees have the same total, the number of recorded edges |
| GraphService.Bfs | backend/dist/src/api/article/services/graph.js:499-524 | a returned path is a walk from source to target along adjacency with no shorter walk, and no path is returned exactly when the target is unreachable |
| GraphService.ExactBound | backend/dist/src/api/article/services/graph.js:499-523 | no walk to a visited node is shorter than its breadth-first distance |
| GraphService.ShortWalkVisited | backend/dist/src/api/article/services/graph.js:503-523 | once all nodes nearer than k are expanded, every walk of at most k links from the source ends at a visited node |
| GraphService.ExactAdd | backend/dist/src/api/article/services/graph.js:516-520 | a first-seen neighbour of a node at distance k is at distance k + 1 |
| GraphService.Exhausted | backend/dist/src/api/article/services/graph.js:503-524 | an empty queue with the target never reached means no walk reaches it |
| GraphService.Expand | backend/dist/src/api/article/services/graph.js:515-522 | after the inner loop every neighbour of the current node is visited, and each newly visited one is queued with the current node as parent |
| GraphService.VisitNeighbour | backend/dist/src/api/article/services/graph.js:516-521 | one neighbour is marked visited, given a parent and queued exactly when it was not yet visited |
| GraphService.Reconstruct | backend/dist/src/api/article/services/graph.js:505-513 | following parents back from the target gives a walk from the source, one node longer than the target's distance |
| GraphService.ReconstructedIsShortest | backend/dist/src/api/article/services/graph.js:505-513 | a walk as long as its end's breadth-first distance is a shortest walk |
| GraphService.FindShortestPath | backend/dist/src/api/article/services/graph.js:491-525 | null when either id is not an article; [sourceId] for the same article; otherwise a shortest walk along the adjacency, and null only when the target is unreachable |
| GraphSubgraph.Levels | backend/dist/src/api/article/services/graph.js:541 | the level loop runs `depth` times for a positive depth and not at all for zero, a negative depth or NaN |
| GraphSubgraph.BallGrows | backend/dist/src/api/article/services/graph.js:538-564 | the requested article is always in its neighbourhood, and the neighbourhood only grows with the depth |
| GraphSubgraph.BallInArticles | backend/dist/src/api/article/services/graph.js:538-564 | the neighbourhood of an article holds only articles |
| GraphSubgraph.ExpandLevel | backend/dist/src/api/article/services/graph.js:542-559 | one level adds every unseen out- and in-neighbour of the current level to the node set and makes exactly those the next level |
| GraphSubgraph.VisitOne | backend/dist/src/api/article/services/graph.js:543-559 | one node of the current level is expanded and leaves the to-do set |
| GraphSubgraph.ExpandNode | backend/dist/src/api/article/services/graph.js:544-558 | expanding a node adds its out-neighbours and its in-neighbours |
| GraphSubgraph.AddAll | backend/dist/src/api/article/services/graph.js:545-550 | the loop over one neighbour list adds every listed neighbour to the node set and exactly the unseen ones to the next level |
| GraphSubgraph.Neighbourhood | backend/dist/src/api/article/services/graph.js:538-564 | after n levels the node set is the neighbourhood of radius n along out- and in-links |
| GraphSubgraph.GetSubgraph | backend/dist/src/api/article/services/graph.js:533-580 | an unknown article gives no nodes and no edges; otherwise the articles of the neighbourhood of radius depth and the edges whose two truthy ends lie in it |
| GraphSubgraph.SubgraphClosed | backend/dist/src/api/article/services/graph.js:565-579 | every returned edge has both endpoints among the returned nodes, and the requested article is one of them |
| GraphCommunities.Degrees | backend/dist/src/api/article/services/graph.js:305-309 | every node gets a degree, the length of its out-list |
| GraphCommunities.GainWithoutLinks | backend/dist/src/api/article/services/graph.js:389-392 | a community with no neighbour of the node never has a positive gain |
| GraphCommunities.GainBelowLinkShare | backend/dist/src/api/article/services/graph.js:389-392 | the gain is at most the share of all edges that go into the community |
| GraphCommunities.ModularityGain | backend/dist/src/api/article/services/graph.js:372-393 | the loop's counts give the simplified gain for moving into the target community, and 0 when source and target communities coincide |
| GraphCommunities.NeighbourCommunities | backend/dist/src/api/article/services/graph.js:321-328 | the candidate communities are exactly the communities of the node's neighbours |
| GraphCommunities.CommunityGains | backend/dist/src/api/article/services/graph.js:321-328 | each neighbouring community appears once, in order of first appearance, with its gain |
| GraphCommunities.ChooseCommunity | backend/dist/src/api/article/services/graph.js:329-337 | the chosen community is the node's own with gain 0, or a neighbouring community with strictly positive gain; no neighbouring community has a larger gain |
| GraphCommunities.Pass | backend/dist/src/api/article/services/graph.js:317-343 | every node stays assigned; the ghost trace records one state per node visited, each step as MoveNode states (so a node moves only to a neighbouring community of strictly positive, maximal gain); improved holds exactly when some step changed the assignment, and a pass without a move changes nothing |
| GraphCommunities.Values | backend/dist/src/api/article/services/graph.js:347 | the assignment's values in node order |
| GraphCommunities.Rank | backend/dist/src/api/article/services/graph.js:350-354 | a community's number is its 1-based position in the list of distinct communities |
| GraphCommunities.Renumbering | backend/dist/src/api/article/services/graph.js:350-354 | the distinct communities are numbered 1, 2, ... in order of first appearance |
| GraphCommunities.RankAt | backend/dist/src/api/article/services/graph.js:350-354 | the i-th distinct community gets number i + 1 |
| GraphCommunities.RenumberedIsBijective | backend/dist/src/api/article/services/graph.js:346-364 | the written numbers are exactly 1..k, k the number of distinct communities, and two nodes get the same number exactly when they share a community |
| GraphCommunities.NumberInRange | backend/dist/src/api/article/services/graph.js:355-356 | every written number lies in 1..k |
| GraphCommunities.SameNumberSameCommunity | backend/dist/src/api/article/services/graph.js:350-356 | two nodes get the same number exactly when they share a community |
| GraphCommunities.NumberWritten | backend/dist/src/api/article/services/graph.js:350-356 | every number of 1..k is written to some node |
| GraphCommunities.CalculateCommunities | backend/dist/src/api/article/services/graph.js:284-368 | no articles give an empty map; otherwise every node is assigned; with no edges every node stays in its own community and nothing is written; at most 10 passes run; when any ran, the degrees are the out-list lengths and the final pass moved each node only to a neighbouring community of strictly positive, maximal gain, and moved none when fewer than 10 passes ran; the renumbered communities are written |
| GraphCommunities.Singletons | backend/dist/src/api/article/services/graph.js:294-297 | every node starts in its own community |
| GraphCommunities.WriteBack | backend/dist/src/api/article/services/graph.js:346-364 | the written rows are the nodes with their renumbered communities |
| GraphCommunities.Normalize | backend/dist/src/api/article/services/graph.js:355-364 | each node, in order, is written with its community's number |
| GraphCommunities.InValues | backend/dist/src/api/article/services/graph.js:347 | every node's community is among the distinct communities |
| GraphCommunities.Distinct | backend/dist/src/api/article/services/graph.js:347 | the set of communities, in order of first appearance |
| GraphCommunities.MoveNode | backend/dist/src/api/article/services/graph.js:318-341 | the node keeps its community when no neighbouring community has positive gain; otherwise it moves, and only it, to a neighbouring community other than its own whose gain is positive and at least that of every candidate; moved says whether the assignment changed |
| GraphCommunities.PassStep | backend/dist/src/api/article/services/graph.js:317-341 | one visit of the pass extends the trace by the node's move and keeps improved equal to "some step so far changed the assignment" |
| GraphCommunities.TracedStep | backend/dist/src/api/article/services/graph.js:317-341 | every recorded step of a traced pass is a move as MoveNode states |
| GraphCommunities.TracedSnoc | backend/dist/src/api/article/services/graph.js:317-341 | a traced pass extended by a legal move of the next node is still traced |
| GraphCommunities.Gain | backend/dist/src/api/article/services/graph.js:372-392 | the simplified modularity gain is positive exactly when 2m times the links into the community exceed the node degree times the community degree |
| GraphCommunities.Passes | backend/dist/src/api/article/services/graph.js:310-344 | every node stays assigned, and there are between one and ten passes; the returned ghost trace is the final pass, one step per node, each step moving a node only on strictly positive gain; when the loop stops before ten passes, that final pass moved no node |
| GraphCommunities.MoveNodes | backend/dist/src/api/article/services/graph.js:304-344 | after one to ten passes every node is still assigned; the degrees are the out-list lengths; the final pass moved each node only to a neighbouring community of strictly positive, maximal gain, and moved none when fewer than ten passes ran |
| GraphCommunities.Detect | backend/dist/src/api/article/services/graph.js:304-368 | on a graph with links: every node assigned after one to ten passes, the final pass as MoveNodes states, and the renumbered communities written |
| GraphController.ValidateId | backend/dist/src/api/graph/controllers/graph.js:110-119 | an id whose base-10 parseInt is NaN is refused with "Invalid article ID" before any service call, as in the subgraph, community and similarity endpoints (lines 299-308, 342-351, 366-375); otherwise the service gets the parsed id and the parsed query option or its default |
| GraphController.ValidIdsPass | backend/dist/src/api/graph/controllers/graph.js:114-119 | an id written as a decimal number always passes and reaches the service unchanged |
| GraphController.FindArticle | backend/dist/src/api/graph/controllers/graph.js:280 | the article found has the id looked for, and none is found only when no article has it |
| GraphController.InPathOrder | backend/dist/src/api/graph/controllers/graph.js:280 | the articles are listed one per path id, in path order |
| GraphController.GetShortestPath | backend/dist/src/api/graph/controllers/graph.js:257-293 | refused exactly when either id is not a number; a missing path answers success false with a null path; a found path is returned with its articles in path order and length one less than the path |
| GraphController.AvgDegree | backend/dist/src/api/graph/controllers/graph.js:241 | 0 without edges; otherwise twice the edge count over the article count, which is Infinity when there are no articles |
| GraphController.AvgDegreeIsMeanDegree | backend/dist/src/api/graph/controllers/graph.js:217-246 | when every active edge joins two known articles, the reported average degree is the mean of the totalDegree values that updateDegreeCounts writes |
| GraphController.DegreesSumToTwiceEdges | backend/dist/src/api/graph/controllers/graph.js:241 | the written degrees add up to two per edge when every edge joins two known articles |
| GraphController.OrReal | backend/dist/src/api/graph/controllers/graph.js:411-416 | a missing or zero number takes the default; any other value is kept |
| GraphController.OrInt | backend/dist/src/api/graph/controllers/graph.js:414-415 | a missing or zero integer takes the default; any other value is kept |
| GraphController.ToLinks | backend/dist/src/api/graph/controllers/graph.js:418-427 | one link per edge whose two endpoint ids are truthy, in edge order, weight defaulting to 0.5 |
| GraphController.FullGraph | backend/dist/src/api/graph/controllers/graph.js:390-439 | one node per article, in order, each the article mapped as ToNode states; the links are exactly the edges with both endpoint ids truthy, in order, each mapped as ToLink states; totalNodes and totalLinks are the two list lengths; communities is the number of distinct community values among the nodes, between 1 and the article count when there are articles |
| GraphController.LinksAreTheLinkableEdges | backend/dist/src/api/graph/controllers/graph.js:418-427 | the number of links is the number of edges with both endpoint ids truthy |
| GraphController.CreateTestEdges | backend/dist/src/api/graph/controllers/graph.js:134-211 | skipped counts exactly the ten seeded edges with a missing article; created counts the inserted edges, each a seeded edge with both articles; created + skipped is at most 10, and exactly 10 when no insert fails |
| GraphController.CommunitySummary | backend/dist/src/api/graph/controllers/graph.js:73-80 | the number of distinct communities never exceeds the number of nodes |
| GraphController.ToNode | backend/dist/src/api/graph/controllers/graph.js:406-417 | id, title, slug and category are copied; a missing or zero pageRank becomes 0.15; a missing or zero authority, hub, community, degree or betweenness becomes 0 |
| GraphController.ToNodes | backend/dist/src/api/graph/controllers/graph.js:406-417 | one node per article, in order, each the mapped article |
| GraphController.ToLink | backend/dist/src/api/graph/controllers/graph.js:420-427 | id, source and target come from the edge, type and label are copied, and a missing or zero weight becomes 0.5 |
| GraphController.DistinctCommunities | backend/dist/src/api/graph/controllers/graph.js:436 | the first occurrences of the community values are as many as the distinct values, the size of `new Set(...)` |
| MarkdownBlocks.HashRun | backend/scripts/migrate-markdown-to-blocks.js:36 | the length of the run of leading `#` characters |
| MarkdownBlocks.HeadingOf | backend/scripts/migrate-markdown-to-blocks.js:36-42 | a line starting with `#` gives a heading whose level is the count of leading `#`s capped at 6, so always 1..6 |
| MarkdownBlocks.Flush | backend/scripts/migrate-markdown-to-blocks.js:16-22 | a pending paragraph is emitted as one paragraph of its lines joined by single spaces, and nothing is emitted when there are no pending lines |
| MarkdownBlocks.FlushPending | backend/scripts/migrate-markdown-to-blocks.js:16-22 | the pending lines become one paragraph joined by spaces, none when nothing is pending, and the buffer is emptied |
| MarkdownBlocks.ConsumeLine | backend/scripts/migrate-markdown-to-blocks.js:12-89 | one trimmed line: a blank line flushes; a heading, list or quote line flushes and then emits its own block; any other line joins the pending paragraph |
| MarkdownBlocks.MarkdownToBlocks | backend/scripts/migrate-markdown-to-blocks.js:5-101 | the converter's loop and final flush compute the line-by-line conversion of the lines split at newlines |
| MarkdownBlocks.ConvertStep | backend/scripts/migrate-markdown-to-blocks.js:11-90 | one turn of the loop is one step of the conversion |
| MarkdownBlocks.ClassifyWellFormed | backend/scripts/migrate-markdown-to-blocks.js:26-89 | a heading, list or quote line gives a well-formed block; a plain line is never blank |
| MarkdownBlocks.ConvertWellFormed | backend/scripts/migrate-markdown-to-blocks.js:11-98 | every produced block is a paragraph, heading (level 1..6), one-item unordered list or quote, and no paragraph is empty |
| MarkdownBlocks.DocumentWellFormed | backend/scripts/migrate-markdown-to-blocks.js:5-101 | every block of a converted document is well formed |
| MarkdownBlocks.EmptyDocument | backend/scripts/migrate-markdown-to-blocks.js:7-24 | the empty string converts to no blocks |
| MarkdownBlocks.EmitCount | backend/scripts/migrate-markdown-to-blocks.js:26-89 | a heading, list or quote line emits exactly one such block and any other line none |
| MarkdownBlocks.StructuralCount | backend/scripts/migrate-markdown-to-blocks.js:11-98 | the number of heading, list and quote blocks equals the number of heading, list and quote lines, so none is lost or merged |
| MarkdownBlocks.PlainLinesMerge | backend/scripts/migrate-markdown-to-blocks.js:17-20 | consecutive plain lines end up in a single paragraph, joined by single spaces |
| MarkdownBlocks.UpdatesCount | backend/scripts/migrate-markdown-to-blocks.js:120-145 | one update per row that needs migration |
| MarkdownBlocks.UpdatesAreTheMigratedRows | backend/scripts/migrate-markdown-to-blocks.js:123-144 | an update is issued exactly for the string contents whose trimmed text does not start with `[`, carrying the converted content |
| MarkdownBlocks.MigrateArticles | backend/scripts/migrate-markdown-to-blocks.js:104-157 | the updates are those of the rows needing migration, and updates plus skipped rows account for every row |
| MarkdownBlocks.Classify | backend/scripts/migrate-markdown-to-blocks.js:26-89 | blank exactly for the empty line, and a line that is a block of its own never becomes a paragraph |
| MarkdownBlocks.ConvertLength | backend/scripts/migrate-markdown-to-blocks.js:11-98 | the converter emits no more blocks than lines, plus one for a paragraph pending at the start |
| SeoCheck.ClassifyLink | backend/scripts/seo-check.js:46-55 | a present, non-empty href is internal exactly when it starts with `/` or mentions the page's host, external exactly when it is not internal and starts with `http`, and neither otherwise |
| SeoCheck.WordCount | backend/scripts/seo-check.js:43 | the number of positions where a non-space character starts a word (first character, or after white space), and zero exactly when the body has no non-space character |
| SeoCheck.TitlePoints | backend/scripts/seo-check.js:66-84 | 0 for an empty title, 20 for 50-60 characters, 15 for 30-49, 10 above 60, 5 for 1-29, each exactly on its range |
| SeoCheck.DescriptionPoints | backend/scripts/seo-check.js:86-104 | 0 for an empty description, 15 for 140-160 characters, 12 for 120-139, 10 above 160, 5 for 1-119, each exactly on its range |
| SeoCheck.H1Points | backend/scripts/seo-check.js:106-116 | 15 for exactly one `<h1>`, 0 for none, 5 for several |
| SeoCheck.WordPoints | backend/scripts/seo-check.js:118-133 | 25 from 1500 words, 20 from 1000, 12 from 500, 5 below, each exactly on its range |
| SeoCheck.ImagePoints | backend/scripts/seo-check.js:135-144 | 0 without images, 10 when every image has alt text, otherwise 10 less 2 per missing alt text and never below 0 |
| SeoCheck.LinkPoints | backend/scripts/seo-check.js:146-156 | 10 from five internal links, 7 for three or four, otherwise 2 per link |
| SeoCheck.BonusPoints | backend/scripts/seo-check.js:158-170 | 5 points for a canonical link or for structured data when present, none otherwise |
| SeoCheck.Quality | backend/scripts/seo-check.js:172-189 | EXCELLENT from 90, VERY GOOD from 80, GOOD from 70, FAIR from 60, POOR - NEEDS WORK! below |
| SeoCheck.CountLinks | backend/scripts/seo-check.js:46-55 | the two counters are the numbers of internal and of external hrefs, which together never exceed the number of hrefs |
| SeoCheck.Score | backend/scripts/seo-check.js:59-170 | the total of the points of every check, between 5 and 105 for every page |
| SeoCheck.PerfectScore | backend/scripts/seo-check.js:59-170 | a page scores 105 exactly when it gets the top points in every check |
| SeoCheck.ScoreChain | backend/scripts/seo-check.js:66-170 | the accumulated score is the sum of the points of every check |
| SeoCheck.CheckSeo | backend/scripts/seo-check.js:4-189 | the report's score is the page's score, between 5 and 105, with its quality label, and the word and link counts of the page |
| GenerateAudio.ParseArgs | backend/scripts/generate-audio.js:28-32 | dry run and skip-existing are set exactly when their flags occur; the limit is null exactly when `--limit` is absent, and otherwise parseInt of the argument after it |
| GenerateAudio.PageSize | backend/scripts/generate-audio.js:117 | the page size is the parsed limit, and 1000 for a missing, NaN or zero limit |
| GenerateAudio.LimitRoundTrip | backend/scripts/generate-audio.js:31-32 | `--limit n` with n written out parses back to n, and asks for n articles (1000 for 0) |
| GenerateAudio.TrailingLimit | backend/scripts/generate-audio.js:31-32 | a trailing `--limit` parses as NaN and asks for 1000 articles |
| GenerateAudio.PlaceholdersUnusable | backend/scripts/generate-audio.js:22-25 | the placeholder defaults all contain `YOUR_`, so an unset variable is always reported |
| GenerateAudio.ConfigErrors | backend/scripts/generate-audio.js:320-343 | one error per unusable setting, the token first; the key and the voice are checked only in a real run; no error exactly when every checked setting is usable |
| GenerateAudio.EmptyEnvironmentFails | backend/scripts/generate-audio.js:22-25 | with no environment the check reports one error in a dry run and three in a real run |
| GenerateAudio.InlineText | backend/scripts/generate-audio.js:63 | the children's texts concatenated, empty exactly when no child has text |
| GenerateAudio.ItemTexts | backend/scripts/generate-audio.js:69-74 | one text per list item, empty for an item without children |
| GenerateAudio.ExtractText | backend/scripts/generate-audio.js:43-81 | falsy content and content that is neither a string nor an array give ""; a Markdown string is stripped and trimmed; blocks give their non-empty texts joined by blank lines |
| GenerateAudio.JoinOfNonEmpty | backend/scripts/generate-audio.js:77 | joining non-empty texts gives "" only when there are none |
| GenerateAudio.BlocksTextEmpty | backend/scripts/generate-audio.js:60-78 | blocks give no text exactly when none of them has text of its own |
| GenerateAudio.OtherBlocksIgnored | backend/scripts/generate-audio.js:76-77 | a block of any other type adds nothing to the text |
| GenerateAudio.Uncapped | backend/scripts/generate-audio.js:90-96 | the text starts with the title and a full stop; with an excerpt the excerpt follows a blank line, and without one the content follows at once |
| GenerateAudio.Capped | backend/scripts/generate-audio.js:99-103 | the capped text is at most 50000 + 3 characters, unchanged when within the cap, and keeps every prefix of at most 50000 characters |
| GenerateAudio.TitleSurvives | backend/scripts/generate-audio.js:84-106 | a title that does not start with white space survives the cap and the trim, followed by its full stop |
| GenerateAudio.ExcerptSurvives | backend/scripts/generate-audio.js:84-106 | an excerpt that does not end with white space follows the title and a blank line in the final text |
| GenerateAudio.CreateAudioText | backend/scripts/generate-audio.js:84-106 | the audio text is the title, excerpt and content text assembled, capped and trimmed, and never exceeds 50000 + 3 characters |
| GenerateAudio.GeneratedIff | backend/scripts/generate-audio.js:264-300 | an article is generated exactly in a real run with a text of at least 100 characters, not skipped for existing audio, and with both calls succeeding |
| GenerateAudio.Statuses | backend/scripts/generate-audio.js:256-306 | one status per article, in order |
| GenerateAudio.TalliesAddUp | backend/scripts/generate-audio.js:251-300 | generated, skipped and failed add up to the number of articles |
| GenerateAudio.DryRunTally | backend/scripts/generate-audio.js:280-300 | a dry run generates nothing |
| GenerateAudio.ProcessArticles | backend/scripts/generate-audio.js:240-317 | every article is processed once, each counter counts the articles with its status, and the three add up to the processed count |
| GenerateAudio.Bump | backend/scripts/generate-audio.js:267-299 | exactly the counter of the article's status goes up by one |
| GenerateAudio.ProcessOne | backend/scripts/generate-audio.js:256-306 | the checks run in the script's order: skip for existing audio, skip for text under 100 characters, fail on generation, fail or succeed on upload; a dry run never generates |
| GenerateAudio.Tally | backend/scripts/generate-audio.js:280-300 | a tally never exceeds the number of trials |
| ImportArticles.Prefix | backend/scripts/import-articles.ts:87-88 | the first n characters, or the whole of a shorter string |
| ImportArticles.Transform | backend/scripts/import-articles.ts:54-91 | the body is "# " + title + a blank line + excerpt; the SEO title and description are the first 60 and 160 characters of the title and excerpt; every other field is copied unchanged |
| ImportArticles.SeoFieldsFit | backend/scripts/import-articles.ts:87-88 | a short title or excerpt is its own SEO field; a longer one is cut to exactly 60 or 160 characters |
| ImportArticles.ContentRecoversFields | backend/scripts/import-articles.ts:60 | the title and the excerpt can be read back out of the generated body |
| ImportArticles.Headers | backend/scripts/import-articles.ts:97-103 | the JSON content type always comes first, and an Authorization header, "Bearer " + token, is present exactly when a token is configured |
| ImportArticles.ImportAll | backend/scripts/import-articles.ts:94-153 | one transformed request per article, in order; the successes are the truthy results; successes and failures add up to the number of articles |
| Calculator.ParamsOf | frontend/lib/calculator-logic-OLD.ts:38-69 | every scenario's management multiplier lies in (0, 1.2] and its fine frequency in (0, 1) |
| Calculator.ScenarioOrDefault | frontend/lib/calculator-logic-OLD.ts:72 | without a scenario the realistic one is used |
| Calculator.Fines | frontend/lib/calculator-logic-OLD.ts:77-81 | the fines are a multiple of 500 and at most 6 × 500 |
| Calculator.FinesNonNegative | frontend/lib/calculator-logic-OLD.ts:77-81 | no negative fines for a non-negative volume |
| Calculator.FinesMonotone | frontend/lib/calculator-logic-OLD.ts:77-81 | the fines never decrease with the invoice volume |
| Calculator.FinesMonotoneInFrequency | frontend/lib/calculator-logic-OLD.ts:77-81 | the fines never decrease with the scenario's fine frequency |
| Calculator.OpportunityCost | frontend/lib/calculator-logic-OLD.ts:101-104 | the management cost is at most 24000, and not negative for a non-negative volume |
| Calculator.BaseCost | frontend/lib/calculator-logic-OLD.ts:160-168 | the base cost is one of 8000, 10000, 15000 and 25000 |
| Calculator.ImplementationCost | frontend/lib/calculator-logic-OLD.ts:158-181 | the implementation cost is at most 50000, and at least 8000 for non-negative inputs |
| Calculator.ImplementationCostMonotoneInRevenue | frontend/lib/calculator-logic-OLD.ts:158-181 | the implementation cost never decreases with revenue |
| Calculator.ImplementationCostMonotoneInVolume | frontend/lib/calculator-logic-OLD.ts:158-181 | the implementation cost never decreases with invoice volume |
| Calculator.Divide | frontend/lib/calculator-logic-OLD.ts:124 | the quotient is a finite number exactly when the divisor is not zero, and then multiplies back to the dividend |
| Calculator.Impact | frontend/lib/calculator-logic-OLD.ts:71-155 | total losses are the sum of the five losses; savings are losses less the implementation cost; the 6-month and 3-year projections follow their formulas; the return is finite exactly when the implementation cost is not zero; the management cost is at most 24000 |
| Calculator.ImpactOfNonNegativeInputs | frontend/lib/calculator-logic-OLD.ts:71-181 | for non-negative inputs every loss is non-negative, fines lie in 0..3000, the implementation cost lies in 8000..50000, and the return is a finite number |
| Calculator.NegativeRevenueZeroCost | frontend/lib/calculator-logic-OLD.ts:158-181 | a revenue of minus 20 million with no invoices gives a zero implementation cost and a return that is not a finite number |
| Calculator.CompareScenarios | frontend/lib/calculator-logic-OLD.ts:202-215 | the three scenarios side by side, the realistic one equal to the default, all sharing one implementation cost |
| Calculator.LossesMonotoneInParams | frontend/lib/calculator-logic-OLD.ts:71-116 | for non-negative inputs, a scenario whose every parameter is at least as costly estimates at least the same losses |
| Calculator.TimeWastedMono | frontend/lib/calculator-logic-OLD.ts:87-88 | the time cost never decreases with the hours per invoice or the hourly rate |
| Calculator.OpportunityCostMono | frontend/lib/calculator-logic-OLD.ts:101-104 | the management cost never decreases with the management multiplier |
| Calculator.ScenariosOrdered | frontend/lib/calculator-logic-OLD.ts:38-69 | for non-negative inputs the conservative losses are at most the realistic ones, which are at most the optimistic ones |
| Calculator.Losses | frontend/lib/calculator-logic-OLD.ts:116 | the yearly losses are never negative for non-negative inputs and scenario rates |
| UserStorage.MarkRead | frontend/lib/user-storage.ts:39-45 | the slug is read afterwards; an already read slug leaves the record as it was; otherwise the slug is appended; bookmarks and history are untouched |
| UserStorage.MarkReadIdempotent | frontend/lib/user-storage.ts:39-45 | marking the same article twice is the same as marking it once |
| UserStorage.MarkReadKeepsNoDuplicates | frontend/lib/user-storage.ts:39-45 | marking never puts a slug twice into the read list |
| UserStorage.RemoveAt | frontend/lib/user-storage.ts:57 | removing one element keeps the elements before it and shifts the rest down by one |
| UserStorage.IndexOf | frontend/lib/user-storage.ts:54 | the index of the first occurrence, or -1 exactly when the element is absent |
| UserStorage.ToggleList | frontend/lib/user-storage.ts:52-65 | an absent slug is appended; a present one loses one occurrence and nothing else |
| UserStorage.Added | frontend/lib/user-storage.ts:56-64 | the toggle reports true exactly when the slug was not bookmarked |
| UserStorage.ToggleMembership | frontend/lib/user-storage.ts:52-65 | on a list without duplicates the reported result is the slug's new membership, the list stays without duplicates, and no other slug changes membership |
| UserStorage.ToggleWithDuplicate | frontend/lib/user-storage.ts:52-65 | with a duplicated slug the toggle reports the slug removed although it is still bookmarked |
| UserStorage.ToggleTwice | frontend/lib/user-storage.ts:52-65 | toggling an absent slug twice restores the list; toggling any slug twice restores its membership |
| UserStorage.AddToHistory | frontend/lib/user-storage.ts:72-88 | the new entry comes first, no later entry has the same slug, the rest are the earlier entries for other slugs in order, and the list holds at most 20 entries |
| UserStorage.AddedOnce | frontend/lib/user-storage.ts:72-88 | after adding, exactly one history entry has the slug |
| UserStorage.AddKeepsOldEntries | frontend/lib/user-storage.ts:72-88 | every entry after the first was already in the history |
| UserStorage.Storage.Data | frontend/lib/user-storage.ts:12-27 | without a window, without a stored value or with a value that does not parse, the record is three empty lists; otherwise it is the stored record |
| UserStorage.Storage.Save | frontend/lib/user-storage.ts:29-37 | with a window the record is stored and read back unchanged; without one nothing changes |
| UserStorage.Storage.MarkArticleAsRead | frontend/lib/user-storage.ts:39-45 | the store is written only when the slug was not yet read, and the record read back is the marked one |
| UserStorage.Storage.IsArticleRead | frontend/lib/user-storage.ts:47-50 | true exactly when the slug is in the read list |
| UserStorage.Storage.ToggleBookmark | frontend/lib/user-storage.ts:52-65 | returns whether the slug was absent, and stores the toggled bookmark list |
| UserStorage.Storage.IsArticleBookmarked | frontend/lib/user-storage.ts:67-70 | true exactly when the slug is bookmarked |
| UserStorage.Storage.AddToReadingHistory | frontend/lib/user-storage.ts:72-88 | stores the record with the updated history |
| UserStorage.Storage.GetReadingHistory | frontend/lib/user-storage.ts:90-93 | returns the stored reading history |
| UserStorage.Storage.constructor | frontend/lib/user-storage.ts:12-27 | the store starts from the given window flag and stored value |
| CalculatorWizard.Screen | frontend/app/kalkulator/page.tsx:96-138 | the intro, question and loading screens render whenever they are the step; the three figure screens render only when the results and both answers are present |
| CalculatorWizard.Wizard.constructor | frontend/app/kalkulator/page.tsx:28-31 | the wizard starts on the intro screen with nothing answered or computed |
| CalculatorWizard.Wizard.Start | frontend/app/kalkulator/page.tsx:33-35 | the intro leads to the first question and keeps the answers |
| CalculatorWizard.Wizard.Q1Next | frontend/app/kalkulator/page.tsx:37-40 | the revenue answer is kept and the second question is shown |
| CalculatorWizard.Wizard.Calculate | frontend/app/kalkulator/page.tsx:42-55 | the volume answer is kept; with a revenue known the impact of both answers is computed and the loading screen shown, otherwise the step and results stay |
| CalculatorWizard.Wizard.LoadingComplete | frontend/app/kalkulator/page.tsx:57-59 | the loading screen leads to the disaster screen |
| CalculatorWizard.Wizard.DisasterNext | frontend/app/kalkulator/page.tsx:61-63 | the disaster screen leads to the solution screen |
| CalculatorWizard.Wizard.SolutionFinish | frontend/app/kalkulator/page.tsx:65-67 | the solution screen leads to the results screen |
| CalculatorWizard.Wizard.Restart | frontend/app/kalkulator/page.tsx:69-74 | back to the intro with the answers and results cleared |
| CalculatorWizard.Wizard.Back | frontend/app/kalkulator/page.tsx:76-94 | each back button returns to the previous screen and keeps the answers |
| CalculatorWizard.Wizard.ValidRendersStep | frontend/app/kalkulator/page.tsx:96-138 | in every state the handlers can reach, the page renders the screen of its step and never a blank page |
| CalculatorWizard.Previous | frontend/app/kalkulator/page.tsx:76-94 | the back target of each screen, one screen per target |
| StrapiClient.CtaUrl | frontend/lib/strapi.ts:298-310 | each of the seven call-to-action names leads to its page; no action or an unknown one leads to the home page |
| StrapiClient.CtaUrlIsAPage | frontend/lib/strapi.ts:298-310 | whatever the action, the link is one of the site's seven pages |
| StrapiClient.AuthorName | frontend/lib/strapi.ts:334-336 | the academic title and the name when a title is set, else the name, else "Ekspert KSeF"; never empty |
| StrapiClient.Transform | frontend/lib/strapi.ts:315-358 | the id becomes a string; images get the base URL, the grid image falls back to the thumbnail and that to the placeholder; every missing or falsy field gets its default; the article is never bookmarked; the call to action is copied |
| StrapiClient.TransformFillsDefaults | frontend/lib/strapi.ts:315-358 | the rendered record always has a category, difficulty, type, author name, avatar and images, and a non-zero reading time |
| StrapiClient.TransformKeepsSetFields | frontend/lib/strapi.ts:329-343 | a set category and reading time pass through unchanged |
| StrapiClient.TitleWithoutName | frontend/lib/strapi.ts:334-335 | an author with a title and no name is shown as the title followed by "undefined" |
| BlogHelpers.JsRem | frontend/_from_v0/temp_v40_blog/lib/helpers.ts:18 | the remainder of JavaScript's `%`, which takes the sign of the dividend |
| BlogHelpers.CardVariantAt | frontend/_from_v0/temp_v40_blog/lib/helpers.ts:3-19 | a card's variant is the pattern entry at its index modulo twelve; a negative index that is not a multiple of twelve gets no variant |
| BlogHelpers.CardVariantPeriodic | frontend/_from_v0/temp_v40_blog/lib/helpers.ts:3-19 | the card pattern repeats every twelve cards |
| BlogHelpers.OneExtraTallPerTwelve | frontend/_from_v0/temp_v40_blog/lib/helpers.ts:3-19 | in every run of twelve cards exactly one is extra tall, the sixth of its cycle |
| BlogHelpers.CategoryColor | frontend/_from_v0/temp_v40_blog/lib/helpers.ts:21-32 | a known category gets its colours; any other name gets the neutral colours |
| BlogHelpers.CategoryColorsDistinct | frontend/_from_v0/temp_v40_blog/lib/helpers.ts:21-32 | the seven categories get pairwise different colours, none of them neutral |
| BlogHelpers.AgeOf | frontend/_from_v0/temp_v40_blog/lib/helpers.ts:38-45 | day 0 is today, day 1 yesterday, fewer than 7 days counts days, fewer than 30 counts whole weeks from 1 to 4, and so on for months and years |
| BlogHelpers.AgeText | frontend/_from_v0/temp_v40_blog/lib/helpers.ts:40-45 | the Polish text of each age bucket with its count |
| BlogHelpers.FormatRelativeDate | frontend/_from_v0/temp_v40_blog/lib/helpers.ts:34-46 | the text is that of the age in whole days, rounded down |
| BlogHelpers.AgeMonotone | frontend/_from_v0/temp_v40_blog/lib/helpers.ts:38-45 | for past dates an older date never gets a finer unit, and within a unit never a smaller count |
| BlogHelpers.FutureDateReadsNegative | frontend/_from_v0/temp_v40_blog/lib/helpers.ts:38-42 | a date two days ahead reads "-2 dni temu" |
| BlogHelpers.SharedTags | frontend/_from_v0/temp_v40_blog/lib/helpers.ts:69 | the count of the article's tags that the current article also has |
| BlogHelpers.CategoryDominates | frontend/_from_v0/temp_v40_blog/lib/helpers.ts:59-93 | an article in the current category outscores one from another category that shares no tags |
| BlogHelpers.DefaultRelatedArticles | frontend/_from_v0/temp_v40_blog/lib/helpers.ts:55 | with the default limit, exactly min(3, number of other articles) other articles, none left out scoring above one returned |
| BlogHelpers.RelatedArticles | frontend/_from_v0/temp_v40_blog/lib/helpers.ts:55-100 | only other articles from the list, each at most as often as there; for a non-negative limit exactly min(limit, number of other articles) of them; in non-increasing score order; and no article left out scores above one returned |
| BlogHelpers.RelatedPrefix | frontend/_from_v0/temp_v40_blog/lib/helpers.ts:95-99 | a prefix of the sorted other articles keeps their order and holds nothing else |
| BlogHelpers.RelatedKeepsAllWithRoom | frontend/_from_v0/temp_v40_blog/lib/helpers.ts:55-100 | with room for all of them, every other article is returned |
| BlogHelpers.RelatedScore | frontend/_from_v0/temp_v40_blog/lib/helpers.ts:59-93 | a shared category gives at least 10, every shared tag 5, at most 17 plus 5 per tag; zero exactly when nothing is shared and the article is neither trending nor updated |
| BlogHelpers.RelatedTop | frontend/_from_v0/temp_v40_blog/lib/helpers.ts:95-99 | in a list sorted by descending score, no article outside the first k scores above one inside them |
| ViralGrowth.Rewards | frontend/_from_v0/temp_v40_blog/lib/viral-growth.ts:75-111 | one reward for each threshold 1, 3, 5 and 10 that the count reaches, always a prefix of the reward ladder |
| ViralGrowth.RewardsCumulative | frontend/_from_v0/temp_v40_blog/lib/viral-growth.ts:75-111 | a higher referral count keeps every earlier reward, in order |
| ViralGrowth.LoadStreak | frontend/_from_v0/temp_v40_blog/lib/viral-growth.ts:143-161 | without a stored record the streak is zero and last read today |
| ViralGrowth.NextStreak | frontend/_from_v0/temp_v40_blog/lib/viral-growth.ts:121-137 | a same-day read changes nothing; a read the day after extends the streak and raises the longest if needed; any other day restarts at 1; each new day adds a day read |
| ViralGrowth.UpdateStreakAsWritten | frontend/_from_v0/temp_v40_blog/lib/viral-growth.ts:116-141 | the record is saved and returned updated on a new day, and returned unsaved on the same day |
| ViralGrowth.FreshStreakNeverStarts | frontend/_from_v0/temp_v40_blog/lib/viral-growth.ts:116-161 | as written, a reader with no stored streak never gets one saved, whatever the days, and always sees a zero streak |
| ViralGrowth.UpdateStreak | frontend/_from_v0/temp_v40_blog/lib/viral-growth.ts:116-141 | the corrected update: a first read starts a streak of 1; a stored record is updated as written |
| ViralGrowth.UpdateStreakConsistent | frontend/_from_v0/temp_v40_blog/lib/viral-growth.ts:116-141 | the corrected update saves the record it returns, last read today, with 1 <= current <= longest <= days read |
| ViralGrowth.StreakMotivation | frontend/_from_v0/temp_v40_blog/lib/viral-growth.ts:163-169 | the motivation text for each streak band, with the streak's count |
| ViralGrowth.PointsFor | frontend/_from_v0/temp_v40_blog/lib/viral-growth.ts:182-188 | every action is worth a positive number of points |
| ViralGrowth.AddPoints | frontend/_from_v0/temp_v40_blog/lib/viral-growth.ts:179-214 | the total grows by the action's points times the amount; only that action's counter grows, by the amount; the level follows the new total |
| ViralGrowth.LevelSteps | frontend/_from_v0/temp_v40_blog/lib/viral-growth.ts:210 | the level is 1 plus the number of whole 500-point steps |
| ViralGrowth.LevelTitle | frontend/_from_v0/temp_v40_blog/lib/viral-growth.ts:242-248 | the title of each level band |
| ViralGrowth.NextLevelPoints | frontend/_from_v0/temp_v40_blog/lib/viral-growth.ts:250-253 | a multiple of 500 above the points, at most 500 above them |
| ViralGrowth.NextLevelPointsSmallest | frontend/_from_v0/temp_v40_blog/lib/viral-growth.ts:250-253 | no multiple of 500 lies between the points and the next level |
| ViralGrowth.Ids | frontend/_from_v0/temp_v40_blog/lib/viral-growth.ts:260 | the unlocked achievements' ids, in order |
| ViralGrowth.FirstQualifyingAsWritten | frontend/_from_v0/temp_v40_blog/lib/viral-growth.ts:349-358 | as written: the first achievement, in catalogue order, not yet unlocked whose threshold the value reaches, whatever the action |
| ViralGrowth.SecondReadCompletesCategory | frontend/_from_v0/temp_v40_blog/lib/viral-growth.ts:337-358 | as written, the second to fourth article read, once the first read is rewarded, unlocks "complete_category" |
| ViralGrowth.FirstQualifying | frontend/_from_v0/temp_v40_blog/lib/viral-growth.ts:337-358 | the first achievement, in catalogue order, not yet unlocked, counting this action, whose threshold the value reaches |
| ViralGrowth.ReadsUnlockOnlyReadGoals | frontend/_from_v0/temp_v40_blog/lib/viral-growth.ts:262-347 | a reading count only ever unlocks one of the three reading achievements |
| ViralGrowth.FindGoal | frontend/_from_v0/temp_v40_blog/lib/viral-growth.ts:349-358 | the scan finds the first qualifying achievement, or none |
| ViralGrowth.UserRank | frontend/_from_v0/temp_v40_blog/lib/viral-growth.ts:437-442 | 1 + the number of leaders ahead of the first leader with fewer points, or one past the board when every leader has at least as many |
| ViralGrowth.MockRanks | frontend/_from_v0/temp_v40_blog/lib/viral-growth.ts:426-442 | against the mock board, more than 5420 points rank first and 3420 or fewer rank sixth |
| ViralGrowth.GrowthStore.constructor | frontend/_from_v0/temp_v40_blog/lib/viral-growth.ts:69-73 | every store starts empty |
| ViralGrowth.GrowthStore.TrackReferral | frontend/_from_v0/temp_v40_blog/lib/viral-growth.ts:58-67 | the referral is appended, unclaimed, and nothing else changes |
| ViralGrowth.GrowthStore.UpdateStreakOn | frontend/_from_v0/temp_v40_blog/lib/viral-growth.ts:116-141 | the stored streak and the returned record are those of the corrected update |
| ViralGrowth.GrowthStore.AddPointsFor | frontend/_from_v0/temp_v40_blog/lib/viral-growth.ts:179-214 | the stored score is the loaded score, or the initial one, with the points added |
| ViralGrowth.GrowthStore.CheckAndUnlock | frontend/_from_v0/temp_v40_blog/lib/viral-growth.ts:258-359 | at most one achievement is unlocked, the first qualifying one, stamped with the clock reading and appended; never one already unlocked |
| ViralGrowth.GrowthStore.TrackShare | frontend/_from_v0/temp_v40_blog/lib/viral-growth.ts:402-411 | the share is appended, and nothing else changes |
| ViralGrowth.GrowthStore.ShareCount | frontend/_from_v0/temp_v40_blog/lib/viral-growth.ts:419-421 | the number of recorded shares of that article |
| ViralGrowth.ShareCounted | frontend/_from_v0/temp_v40_blog/lib/viral-growth.ts:402-421 | a share adds one to its article's count and leaves every other article's |
| UniversityFeatures.HighlightStore.constructor | frontend/_from_v0/temp_v40_blog/lib/university-features.ts:36-40 | the store starts without highlights |
| UniversityFeatures.HighlightStore.Save | frontend/_from_v0/temp_v40_blog/lib/university-features.ts:30-34 | the highlight is appended at the end |
| UniversityFeatures.HighlightStore.GetByArticle | frontend/_from_v0/temp_v40_blog/lib/university-features.ts:42-44 | the article's highlights, in stored order |
| UniversityFeatures.HighlightStore.Delete | frontend/_from_v0/temp_v40_blog/lib/university-features.ts:46-49 | every highlight with the id is removed and the rest keep their order |
| UniversityFeatures.OfArticle | frontend/_from_v0/temp_v40_blog/lib/university-features.ts:43 | exactly the stored highlights of that article |
| UniversityFeatures.WithoutId | frontend/_from_v0/temp_v40_blog/lib/university-features.ts:47 | exactly the stored highlights with another id, none added |
| UniversityFeatures.SaveThenGet | frontend/_from_v0/temp_v40_blog/lib/university-features.ts:30-44 | a saved highlight shows up last among its article's highlights, and no other article's list changes |
| UniversityFeatures.SaveThenDelete | frontend/_from_v0/temp_v40_blog/lib/university-features.ts:30-49 | deleting a newly saved highlight whose id was unused restores the store |
| UniversityFeatures.ScoreAll | frontend/_from_v0/temp_v40_blog/lib/university-features.ts:57-105 | every article, in order, paired with its relevance score |
| UniversityFeatures.Analyze | frontend/_from_v0/temp_v40_blog/lib/university-features.ts:54-108 | exactly the input articles with a positive score, each with its score and every copy kept (the same multiset as the positively scored articles), best first |
| UniversityFeatures.SortDescending | frontend/_from_v0/temp_v40_blog/lib/university-features.ts:107 | sorting by descending relevance keeps exactly the members and orders the scores |
| UniversityFeatures.EmptyQueryKeepsAll | frontend/_from_v0/temp_v40_blog/lib/university-features.ts:55-63 | an empty query is one empty keyword, which every title contains, so every article is returned |
| UniversityFeatures.Hits | frontend/_from_v0/temp_v40_blog/lib/university-features.ts:62-74 | the number of keywords found, zero exactly when the text contains none of them |
| UniversityFeatures.Score | frontend/_from_v0/temp_v40_blog/lib/university-features.ts:57-104 | never negative; at least 10 when the title contains a keyword, at least 5 when the description or category does |
| UniversityFeatures.Apa | frontend/_from_v0/temp_v40_blog/lib/university-features.ts:113-119 | starts with the author and contains the year, title, access date and address |
| UniversityFeatures.Mla | frontend/_from_v0/temp_v40_blog/lib/university-features.ts:121-125 | starts with the author and contains the title, publication date, address and access date |
| UniversityFeatures.Chicago | frontend/_from_v0/temp_v40_blog/lib/university-features.ts:127-131 | starts with the author and contains the title, publication date, address and access date |
| UniversityFeatures.Iso690 | frontend/_from_v0/temp_v40_blog/lib/university-features.ts:133-137 | starts with the author and contains the title, publication date, access date and address |
| ArticleListing.RangeDays | frontend/app/baza-wiedzy/page.tsx:76-84 | week, month, quarter and year are 7, 30, 90 and 365 days; any other name has no day count |
| ArticleListing.Stage | frontend/app/baza-wiedzy/page.tsx:48-90 | a stage keeps every copy of each article it passes, when it is on, no copy of one it rejects, and adds none |
| ArticleListing.FilterStages | frontend/app/baza-wiedzy/page.tsx:47-90 | the stages together keep every copy of each article that every active filter accepts, no copy of any other, and add none |
| ArticleListing.OrderOf | frontend/app/baza-wiedzy/page.tsx:92-109 | every known sort key compares articles by a total preorder |
| ArticleListing.SortedCopy | frontend/app/baza-wiedzy/page.tsx:92-109 | the sorted copy is a permutation, ordered by the sort key's comparator; an unknown key leaves the order as it is |
| ArticleListing.Filtered | frontend/app/baza-wiedzy/page.tsx:47-112 | exactly the articles the filters accept, every copy kept and none added (a reordering of one filter by all the tests), sorted by the chosen key |
| ArticleListing.StagesAreOneFilter | frontend/app/baza-wiedzy/page.tsx:47-90 | the chained stages keep the same copies as one filter by every active test |
| ArticleListing.AllCategoriesBypass | frontend/app/baza-wiedzy/page.tsx:60-62 | with "Wszystkie" selected the category selection filters nothing |
| ArticleListing.EmptyCategoryOnlyOnHome | frontend/_from_v0/temp_v40_blog/app/page.tsx:42-44 | an article with an empty category passes a selection holding the empty string on the home page, and never on the knowledge base page |
| ArticleListing.EmptyQueryStageOff | frontend/app/baza-wiedzy/page.tsx:50 | an empty query switches the search stage off |
| ArticleListing.EmptyCategoryStageOn | frontend/app/baza-wiedzy/page.tsx:60 | selecting only the empty category switches the category stage on |
| ArticleListing.UnselectedStagesOff | frontend/app/baza-wiedzy/page.tsx:64-90 | no difficulty, type or tag selection and the whole date range leave those stages off |
| ArticleListing.SortDirections | frontend/app/baza-wiedzy/page.tsx:92-109 | "shortest" puts shorter reads first, "newest" newer articles first, "popular" more viewed ones first |
| ArticleListing.KeyDirections | frontend/app/baza-wiedzy/page.tsx:92-109 | in a list ordered by the chosen comparator, "shortest" puts shorter reads first, "newest" newer articles first and "popular" more viewed ones first |
| ArticleListing.ListingPage.constructor | frontend/app/baza-wiedzy/page.tsx:16-24 | the page starts with no selection, the whole date range, the newest first, no query, and twelve articles shown |
| ArticleListing.ListingPage.ActiveFiltersCount | frontend/app/baza-wiedzy/page.tsx:43-45 | the count is zero exactly when nothing is selected in any of the four lists |
| ArticleListing.ListingPage.Displayed | frontend/app/baza-wiedzy/page.tsx:114-116 | the first `displayCount` filtered articles, each one the filters accept |
| ArticleListing.ListingPage.HasMore | frontend/app/baza-wiedzy/page.tsx:114-116 | true exactly when more articles match than are shown |
| ArticleListing.ListingPage.HandleReset | frontend/app/baza-wiedzy/page.tsx:118-126 | every filter, the sort and the search return to their initial values; the count shown stays |
| ArticleListing.ListingPage.HandleCategorySelect | frontend/app/baza-wiedzy/page.tsx:128-134 | the category is toggled in the selection and nothing else changes |
| ArticleListing.ListingPage.HandleLoadMore | frontend/app/baza-wiedzy/page.tsx:136-138 | twelve more articles are shown and the filters stay |
| ArticleListing.LoadMoreExtends | frontend/app/baza-wiedzy/page.tsx:114-138 | loading more keeps the articles already shown first and shows twelve more while there are any |
| SidebarFilters.With | frontend/components/sidebar-filters.tsx:40-43 | a change callback replaces its own list and leaves the other three |
| SidebarFilters.ActiveFilters | frontend/components/sidebar-filters.tsx:65 | the active filters are the four lists one after another, categories first; a value is active exactly when some list holds it |
| SidebarFilters.ToggleFacet | frontend/components/sidebar-filters.tsx:159-189 | a toggle changes only its own list, by the shared toggle rule |
| SidebarFilters.ToggleFacetFlips | frontend/components/sidebar-filters.tsx:159-189 | a toggle flips the item's membership in its list, keeps every other member, and toggling twice restores the membership |
| SidebarFilters.FirstHolder | frontend/components/sidebar-filters.tsx:192-201 | the first of categories, difficulty, types and tags that holds the value, or none |
| SidebarFilters.RemoveFilter | frontend/components/sidebar-filters.tsx:192-202 | the value leaves the first list that holds it, every occurrence of it; the other lists stay as they are, even when they hold it too |
| SidebarFilters.RemoveFilterShortens | frontend/components/sidebar-filters.tsx:192-202 | removing an active filter shortens the active list; removing anything else changes nothing |
| SidebarFilters.TallyEntries | frontend/components/sidebar-filters.tsx:68-75 | one entry per counted value, none for a value that was not counted, and each count is the value's number of occurrences, at least one |
| SidebarFilters.TallyTotal | frontend/components/sidebar-filters.tsx:68-75 | the counts add up to the number of counted values |
| SidebarFilters.SumOverDistinctKeys | frontend/components/sidebar-filters.tsx:68-75 | occurrence counts over distinct keys covering a list add up to its length |
| SidebarFilters.TotalOfPermutation | frontend/components/sidebar-filters.tsx:87-93 | reordering the entries keeps their total |
| SidebarFilters.TalliedStep | frontend/components/sidebar-filters.tsx:71-75 | counting one more value keeps the map in step with the counted values |
| SidebarFilters.CountValues | frontend/components/sidebar-filters.tsx:69-75 | the loop's map holds, per key in order of first insertion, the key's count among the counted values |
| SidebarFilters.EntriesOf | frontend/components/sidebar-filters.tsx:87 | one entry per key, in insertion order, with the key's count |
| SidebarFilters.FacetEntries | frontend/components/sidebar-filters.tsx:97-122 | the entries are a reordering of the tally, by non-increasing count |
| SidebarFilters.CategoryEntries | frontend/components/sidebar-filters.tsx:68-94 | one entry per distinct non-empty category, by non-increasing count; the counts add up to the number of articles with a category |
| SidebarFilters.Flatten | frontend/components/sidebar-filters.tsx:128-134 | every tag of every article, and no other |
| SidebarFilters.Names | frontend/components/sidebar-filters.tsx:139 | the tag of each entry, in order |
| SidebarFilters.PopularTags | frontend/components/sidebar-filters.tsx:125-140 | min(8, number of distinct tags) tags without repeats, each one some article has, by non-increasing frequency, and no omitted tag occurs more often than a shown one |
| SidebarFilters.MostFrequentFirst | frontend/components/sidebar-filters.tsx:136-139 | the names of a prefix of the sorted tally are tags that occur, by non-increasing number of occurrences |
| SidebarFilters.EntryCounts | frontend/components/sidebar-filters.tsx:136-137 | an entry of the reordered tally names a tag that occurs and counts its occurrences |
| SidebarFilters.DifficultyLevels | frontend/components/sidebar-filters.tsx:143-157 | the three levels in their fixed order, keeping only those some article has, each with its number of articles |
| SidebarFilters.LevelCounts | frontend/components/sidebar-filters.tsx:152-156 | the counts read for the three levels are their numbers of occurrences |
| SidebarFilters.KeptNonEmpty | frontend/components/sidebar-filters.tsx:147 | skipping empty values does not change the count of a non-empty one |
| SidebarFilters.PrototypeLists | frontend/_from_v0/temp_v40_blog/components/sidebar-filters.tsx:95-115 | the prototype lists eight categories, the first the catch-all "Wszystkie", and eight tags |
| SidebarFilters.Kept | frontend/components/sidebar-filters.tsx:71 | the values that get counted, no more than were given (KeptMembers states which) |
| SidebarFilters.Tally | frontend/components/sidebar-filters.tsx:68-75 | no more entries than values (TallyEntries states their names and counts) |
| SidebarFilters.EntryTotal | frontend/components/sidebar-filters.tsx:127-137 | the reordered tally has one entry per distinct tag |
| SidebarFilters.EntryNamesDistinct | frontend/components/sidebar-filters.tsx:127-137 | no tag has two entries in the reordered tally |
| SidebarFilters.OmittedNotMoreFrequent | frontend/components/sidebar-filters.tsx:136-139 | a tag left out of the first eight occurs no more often than any tag shown |
| SidebarFilters.OmittedBehind | frontend/components/sidebar-filters.tsx:136-139 | a left-out tag occurs no more often than the shown tag at a given position |
| KnowledgeMapSearch.SearchResults | frontend/app/mapa-wiedzy/knowledge-map-page.tsx:20-45 | a blank query finds nothing; otherwise exactly min(50, number of matches) nodes, each one that matches the lower-cased trimmed query in title, category or slug, by non-increasing page rank, and no match left out ranks above one returned |
| KnowledgeMapSearch.Matched | frontend/app/mapa-wiedzy/knowledge-map-page.tsx:27-39 | exactly the nodes matching the lower-cased trimmed query in title, category or slug, none added |
| KnowledgeMapSearch.TopRanked | frontend/app/mapa-wiedzy/knowledge-map-page.tsx:40-44 | min(50, number of matches) of the matches, by non-increasing page rank, and no match left out ranks above one kept |
| KnowledgeMapSearch.SearchTop | frontend/app/mapa-wiedzy/knowledge-map-page.tsx:40-44 | no match behind a prefix of the matches sorted by rank ranks above one inside it |
| KnowledgeMapSearch.SearchFindsAllMatches | frontend/app/mapa-wiedzy/knowledge-map-page.tsx:20-45 | with at most fifty matches, every matching node is a result |
| KnowledgeMapSearch.LinksAt | frontend/app/mapa-wiedzy/knowledge-map-page.tsx:231-233 | under the strict `===` test: exactly the links with an endpoint that still holds the node's id; a link whose two endpoints are node objects is never one |
| KnowledgeMapSearch.ConnectionCount | frontend/app/mapa-wiedzy/knowledge-map-page.tsx:231-233 | the page's count: at most the number of links, and zero exactly when no endpoint holds the node's id itself |
| KnowledgeMapSearch.ConnectionCountAppend | frontend/app/mapa-wiedzy/knowledge-map-page.tsx:231-233 | a link with an endpoint holding the node's id raises the count by one; any other link leaves it |
| KnowledgeMapSearch.Layout | frontend/components/knowledge-map-visualization.tsx:38-41 | drawing the map keeps every link and its id and replaces both endpoints by the node objects of the same ids |
| KnowledgeMapSearch.LaidOutCountsZero | frontend/app/mapa-wiedzy/knowledge-map-page.tsx:231-233 | as written: after the map has been drawn, the page counts zero connections for every node |
| KnowledgeMapSearch.LinkCount | frontend/components/knowledge-map-visualization.tsx:232-233 | the corrected count reads an endpoint's id whether it holds the id or the node: at most the number of links, zero exactly when no link has the node at an end |
| KnowledgeMapSearch.LinkCountSurvivesLayout | frontend/components/knowledge-map-visualization.tsx:232-233 | the corrected count is the same before and after the map is drawn |
| KnowledgeMapSearch.CountsAgreeBeforeLayout | frontend/app/mapa-wiedzy/knowledge-map-page.tsx:231-233 | while no endpoint is resolved, the page's count is the corrected one |
| KnowledgeMapSearch.CountLostAfterLayout | frontend/app/mapa-wiedzy/knowledge-map-page.tsx:231-233 | one link between nodes 7 and 8: one connection for node 7 before drawing, none after, and one under the corrected count |
| KnowledgeMapSearch.KnowledgeMapPage.constructor | frontend/app/mapa-wiedzy/knowledge-map-page.tsx:16-17 | the page opens on the map tab with an empty query |
| KnowledgeMapSearch.KnowledgeMapPage.SetSearchQuery | frontend/app/mapa-wiedzy/knowledge-map-page.tsx:165-177 | the query is replaced and the tab stays |
| KnowledgeMapSearch.KnowledgeMapPage.Results | frontend/app/mapa-wiedzy/knowledge-map-page.tsx:20-45 | none for an empty query; otherwise exactly min(50, number of matches) matching nodes, and no match left out ranks above one shown |
| KnowledgeMapView.FindNode | frontend/components/knowledge-map-visualization.tsx:164-165 | a node with the id, or none exactly when no node has it |
| KnowledgeMapView.ShownNodes | frontend/components/knowledge-map-visualization.tsx:162 | exactly the nodes whose category is enabled |
| KnowledgeMapView.ShownLinks | frontend/components/knowledge-map-visualization.tsx:163-167 | exactly the links whose two ends are found with enabled categories |
| KnowledgeMapView.ShownStats | frontend/components/knowledge-map-visualization.tsx:168-176 | the shown node and link counts, at most the totals; the community count copied |
| KnowledgeMapView.ShownLinksJoinShownNodes | frontend/components/knowledge-map-visualization.tsx:161-167 | a shown link has both ends among the shown nodes |
| KnowledgeMapView.LinkIdsAtMembers | frontend/components/knowledge-map-visualization.tsx:231-236 | the highlighted links are exactly the links at the hovered node |
| KnowledgeMapView.EndsAtMembers | frontend/components/knowledge-map-visualization.tsx:231-239 | a node is highlighted with the hovered one exactly when a link joins them |
| KnowledgeMapView.HoverHighlight | frontend/components/knowledge-map-visualization.tsx:223-246 | the loop highlights the hovered node, the ends of its links and those links |
| KnowledgeMapView.GraphView.constructor | frontend/components/knowledge-map-visualization.tsx:70-77 | every category enabled, nothing highlighted or hovered, no layout saved |
| KnowledgeMapView.GraphView.ToggleCategory | frontend/components/knowledge-map-visualization.tsx:148-158 | the category's visibility flips and every other category's stays |
| KnowledgeMapView.GraphView.ToggleAll | frontend/components/knowledge-map-visualization.tsx:551-559 | with as many categories enabled as there are colours all are hidden, otherwise all are shown |
| KnowledgeMapView.GraphView.HandleNodeHover | frontend/components/knowledge-map-visualization.tsx:223-246 | the hovered node is set; no node clears the highlight, a node highlights itself, its neighbours and its links among the shown links |
| KnowledgeMapView.GraphView.HandleNodeDragEnd | frontend/components/knowledge-map-visualization.tsx:262-266 | the dropped node is pinned where it lies and no other node changes |
| KnowledgeMapView.GraphView.ResetLayout | frontend/components/knowledge-map-visualization.tsx:118-140 | with a window the saved layout is dropped and every node unpinned; without one nothing changes |
| KnowledgeMapView.GraphView.SaveCurrentLayout | frontend/components/knowledge-map-visualization.tsx:97-115 | with a window the positions of every placed node are saved under their ids; without one nothing changes |
| KnowledgeMapView.GraphView.ApplySavedPositions | frontend/components/knowledge-map-visualization.tsx:80-200 | with a saved layout every node with a saved position is pinned and moved there and the layout is marked saved; without one no node and no flag changes; links, highlights and hover are untouched |
| KnowledgeMapView.Positions | frontend/components/knowledge-map-visualization.tsx:101-107 | a saved entry exists exactly for the ids of nodes with both coordinates |
| KnowledgeMapView.Restored | frontend/components/knowledge-map-visualization.tsx:187-196 | a node without a saved position is unchanged; one with a saved position is pinned and moved there |
| KnowledgeMapView.SaveRestoreRoundTrip | frontend/components/knowledge-map-visualization.tsx:97-196 | with unique ids, saving and restoring pins every placed node where it was |
| KnowledgeMapView.PositionOfUnique | frontend/components/knowledge-map-visualization.tsx:101-107 | with unique ids, a placed node's saved entry is its own position |
| KnowledgeMapView.WrapText | frontend/components/knowledge-map-visualization.tsx:274-296 | at most three lines, none empty; when no word is empty the lines joined with spaces begin the text |
| KnowledgeMapView.WrapWord | frontend/components/knowledge-map-visualization.tsx:279-289 | one word goes onto the current line or starts a new one, and the lines so far join to the words so far |
| KnowledgeMapView.WrapJoin | frontend/components/knowledge-map-visualization.tsx:279-289 | after a word the lines join to the words up to it |
| KnowledgeMapView.JoinTakePrefix | frontend/components/knowledge-map-visualization.tsx:295 | the first lines, joined, begin the join of all of them |
| MindMap.Strength | frontend/_from_v0/temp_v40_blog/components/mind-map-view.tsx:64-71 | at most 4 plus 2 per tag of the first article, and zero exactly when the two share no category, difficulty or tag |
| MindMap.SharedTagsAsSets | frontend/_from_v0/temp_v40_blog/components/mind-map-view.tsx:67 | without repeated tags, the shared-tag count is the size of the common tag set |
| MindMap.StrengthSymmetric | frontend/_from_v0/temp_v40_blog/components/mind-map-view.tsx:64-71 | for articles without repeated tags the strength is the same both ways |
| MindMap.FindArticle | frontend/_from_v0/temp_v40_blog/components/mind-map-view.tsx:96 | an article with the id, or none when no article has it |
| MindMap.Connections | frontend/_from_v0/temp_v40_blog/components/mind-map-view.tsx:92 | a node links to at most three articles |
| MindMap.StrengthMap | frontend/_from_v0/temp_v40_blog/components/mind-map-view.tsx:93-100 | a strength is recorded exactly for the links whose article is found, and it is the two articles' strength |
| MindMap.ConnectionsAreOtherArticles | frontend/_from_v0/temp_v40_blog/components/mind-map-view.tsx:92-100 | every link of a node goes to another article of the map and has its strength recorded |
| MindMap.ConnectionFound | frontend/_from_v0/temp_v40_blog/components/mind-map-view.tsx:92-96 | every link of a node names another article that the map holds |
| MindMap.InfoFound | frontend/_from_v0/temp_v40_blog/components/mind-map-view.tsx:96 | an article of the map is found by its id |
| MindMap.FindNode | frontend/_from_v0/temp_v40_blog/components/mind-map-view.tsx:227 | a node with the id, or none when no node has it |
| MindMap.FindPath | frontend/_from_v0/temp_v40_blog/components/mind-map-view.tsx:217-238 | from a node to itself the path is that node; a returned path runs from start to end along links; the result is empty exactly when the end cannot be reached; no node is visited twice |
| MindMap.SearchStart | frontend/_from_v0/temp_v40_blog/components/mind-map-view.tsx:219-220 | the search starts with the start node alone, queued with its one-node path |
| MindMap.Exhausted | frontend/_from_v0/temp_v40_blog/components/mind-map-view.tsx:222-237 | with the queue empty and the end never reached, no path reaches it |
| MindMap.Expand | frontend/_from_v0/temp_v40_blog/components/mind-map-view.tsx:227-235 | every unvisited link of the dequeued node is marked visited and queued with its path, and the bookkeeping holds |
| MindMap.VisitLink | frontend/_from_v0/temp_v40_blog/components/mind-map-view.tsx:229-233 | one link of the dequeued node is queued unless already visited |
| MindMap.FinishExpand | frontend/_from_v0/temp_v40_blog/components/mind-map-view.tsx:228-235 | once all its links are visited, the dequeued node counts as explored |
| MindMap.Dequeue | frontend/_from_v0/temp_v40_blog/components/mind-map-view.tsx:223-225 | taking the head off the queue starts the exploration of its links |
| MindMap.QueueTail | frontend/_from_v0/temp_v40_blog/components/mind-map-view.tsx:223 | the queued ids behind the head are the others, without the head's |
| MindMap.Enqueue | frontend/_from_v0/temp_v40_blog/components/mind-map-view.tsx:230-233 | queuing a first-seen link with the extended path keeps the bookkeeping |
| MindMap.PathExtend | frontend/_from_v0/temp_v40_blog/components/mind-map-view.tsx:232 | a path extended by a link of its last node is a path to that link's node |
| MindMap.PathStaysIn | frontend/_from_v0/temp_v40_blog/components/mind-map-view.tsx:222-237 | a path from inside a set closed under links stays in it |
| MindMap.Shrinks | frontend/_from_v0/temp_v40_blog/components/mind-map-view.tsx:222-237 | each round either visits a new node or shortens the queue, so the search ends |
| MindMap.VisibleNodes | frontend/_from_v0/temp_v40_blog/components/mind-map-view.tsx:256-260 | exactly the nodes whose title contains the query, case-insensitively, and whose category is not hidden |
| MindMap.MindMapView.constructor | frontend/_from_v0/temp_v40_blog/components/mind-map-view.tsx:49-59 | nothing selected, zoom 1 at the origin, nothing dragged, no category hidden |
| MindMap.MindMapView.Click | frontend/_from_v0/temp_v40_blog/components/mind-map-view.tsx:482-510 | during a drag nothing happens; a click on empty canvas clears both selections; a click on the selected node opens its article; with only one node selected another becomes the second; otherwise the clicked node becomes the only selection |
| MindMap.MindMapView.Wheel | frontend/_from_v0/temp_v40_blog/components/mind-map-view.tsx:538-542 | scrolling down zooms out by a tenth and up zooms in by a tenth, kept within 0.5 to 3 |
| MindMap.MindMapView.ZoomIn | frontend/_from_v0/temp_v40_blog/components/mind-map-view.tsx:631 | the zoom grows by a fifth, at most to 3, and never falls |
| MindMap.MindMapView.ZoomOut | frontend/_from_v0/temp_v40_blog/components/mind-map-view.tsx:639 | the zoom shrinks by a fifth, at least to 0.5, and never rises |
| MindMap.MindMapView.DoubleClick | frontend/_from_v0/temp_v40_blog/components/mind-map-view.tsx:512-536 | a node under the mouse is centred at zoom 1.5; elsewhere nothing changes |
| MindMap.MindMapView.MouseDown | frontend/_from_v0/temp_v40_blog/components/mind-map-view.tsx:544-561 | a node under the mouse is dragged and pinned; elsewhere the canvas is panned from the mouse less the offset; no other node changes |
| MindMap.MindMapView.MouseUp | frontend/_from_v0/temp_v40_blog/components/mind-map-view.tsx:563-575 | the dragged node, if found, is pinned at rest; the drag and the pan end; no other node changes |
| MindMap.MindMapView.ResetView | frontend/_from_v0/temp_v40_blog/components/mind-map-view.tsx:577-582 | zoom 1 at the origin with nothing selected |
| MindMap.MindMapView.ToggleCategory | frontend/_from_v0/temp_v40_blog/components/mind-map-view.tsx:584-594 | the category's hidden state flips and every other category's stays |
| RelatedArticlesBox.FindById | frontend/components/related-articles.tsx:47 | the first item with the id, or none exactly when no item has it |
| RelatedArticlesBox.FindByIdSnoc | frontend/components/related-articles.tsx:46-53 | a lookup in a longer list finds the same first match, or the new last item |
| RelatedArticlesBox.UniqueById | frontend/components/related-articles.tsx:46-53 | the kept ids are the list's ids at their first occurrences |
| RelatedArticlesBox.UniqueKeepsFirst | frontend/components/related-articles.tsx:46-53 | each kept item is the first item with its id |
| RelatedArticlesBox.Deduplicate | frontend/components/related-articles.tsx:46-53 | the loop's accumulator is the list with later repeats of an id dropped |
| RelatedArticlesBox.DeduplicateKeepsFirsts | frontend/components/related-articles.tsx:46-53 | de-duplication keeps each id exactly once and loses none |
| RelatedArticlesBox.RelationshipLabel | frontend/components/related-articles.tsx:16-27 | a known relationship type gets its Polish label; an unknown one is shown as it is |
| RelatedArticlesBox.CardOf | frontend/components/related-articles.tsx:105-128 | a card shows the relationship caption when a type is set, the rank badge above page rank 0.5, and the strength badge above weight 0.8 |
| RelatedArticlesBox.Shown | frontend/components/related-articles.tsx:41-55 | nothing for a missing or empty list; otherwise the first one to three distinct recommendations, three whenever there are that many |
| RelatedArticlesBox.ThreeDistinctFillTheBox | frontend/components/related-articles.tsx:46-55 | a list that names three different articles fills the box, repeats or not |
| RelatedArticlesBox.UniqueCovers | frontend/components/related-articles.tsx:46-53 | the distinct items are at least as many as any set of ids the list names |
| ViralShare.Tick | frontend/components/viral-share-section.tsx:53-64 | a running countdown loses exactly one second, borrowing from minutes and then hours; at zero it stays; clock digits stay in range |
| ViralShare.TicksCountDown | frontend/components/viral-share-section.tsx:53-64 | after n ticks the countdown shows n seconds less, never below zero |
| ViralShare.InitialCountdownEnds | frontend/components/viral-share-section.tsx:41-64 | from 47:59:59 the countdown reaches zero after exactly 172799 ticks, and not before |
| ViralShare.Percentile | frontend/components/viral-share-section.tsx:69-74 | the percentile is one of 85, 65, 35 and 15: 85 exactly below 50000 and 15 exactly from 200000 |
| ViralShare.PercentileMonotone | frontend/components/viral-share-section.tsx:69-74 | a larger loss never gives a higher percentile |
| ViralShare.Tiers | frontend/components/viral-share-section.tsx:316-347 | the tier i is highlighted exactly from the i-th share |
| ViralShare.RemainingGoesNegative | frontend/components/viral-share-section.tsx:302 | as written, a fourth share makes the counter read minus one |
| ViralShare.Remaining | frontend/components/viral-share-section.tsx:302 | the corrected counter: at most three, zero exactly when the last tier is reached, and as written up to three shares |
| ViralShare.ShareSection.constructor | frontend/components/viral-share-section.tsx:37-41 | the live counter at 1247, no shares, no reward, and 47:59:59 on the clock |
| ViralShare.ShareSection.Share | frontend/components/viral-share-section.tsx:83-87 | one more share; the reward shows exactly from the third |
| ViralShare.ShareSection.LiveTick | frontend/components/viral-share-section.tsx:45-46 | the live counter grows by 0, 1 or 2, the floor of three times the draw |
| ViralShare.ShareSection.CountdownTick | frontend/components/viral-share-section.tsx:53-64 | the clock moves one tick and nothing else changes |
| ViralShare.RemainingAsWritten | frontend/components/viral-share-section.tsx:302 | as written the counter goes negative exactly after the third share |
| CountdownTimer.Split | frontend/components/countdown-timer.tsx:23-30 | the days, hours, minutes and seconds of the remaining milliseconds, each the whole count modulo its unit |
| CountdownTimer.SplitSteps | frontend/components/countdown-timer.tsx:25-28 | each floating expression of the page gives the integer part claimed |
| CountdownTimer.ModFloor | frontend/components/countdown-timer.tsx:26-28 | the floor of a non-negative number modulo 24 or 60 is its floor modulo the same |
| CountdownTimer.SplitRecombines | frontend/components/countdown-timer.tsx:25-28 | the parts are clock digits and add back up to the whole seconds left |
| CountdownTimer.Next | frontend/components/countdown-timer.tsx:20-31 | a new split while the target is ahead, otherwise the previous value |
| CountdownTimer.PassedTargetFreezes | frontend/components/countdown-timer.tsx:12-31 | once the target has passed the boxes keep their last value; a target already past shows zeros |
| CountdownTimer.UnitLabel | frontend/components/countdown-timer.tsx:52-57 | each unit has its three- or four-letter caption |
| CountdownTimer.BoxOf | frontend/components/countdown-timer.tsx:49-57 | a box shows its number zero-padded to two digits (at least two characters) and its unit's caption |
| CountdownTimer.BoxShowsNumber | frontend/components/countdown-timer.tsx:50 | a box's value is all digits and reads back as its number, exactly two digits below 100 |
| CountdownTimer.PaddedValue | frontend/components/countdown-timer.tsx:50 | the zero-padded text is all digits and reads back as the number, two wide below 100 |
| CountdownTimer.Boxes | frontend/components/countdown-timer.tsx:41-59 | four boxes captioned "Dni", "Godz", "Min", "Sek", showing the days, hours, minutes and seconds left, each zero-padded to two digits |
| CountdownTimer.PaddedDigits | frontend/components/countdown-timer.tsx:50 | a single digit gets a leading zero; longer numbers are shown as they are |
| LandingCountdown.Clamp | frontend/components/landing/Countdown.tsx:56 | the elapsed share is kept within 0 to 100, and a share already in range is kept as it is |
| LandingCountdown.Calculate | frontend/components/landing/Countdown.tsx:28-65 | at or after the deadline everything is zero and 100% has elapsed; before it the days, hours, weeks and months are the whole units left and the elapsed share lies in 0 to 100 |
| LandingCountdown.HoursAreTotal | frontend/components/landing/Countdown.tsx:46-47 | the hours are the total hours left, not the hours of the last day |
| LandingCountdown.PercentNeverFalls | frontend/components/landing/Countdown.tsx:34-56 | the elapsed share never falls as time goes on, across the deadline too |
| LandingCountdown.PercentBeforeDeadline | frontend/components/landing/Countdown.tsx:53-56 | before the deadline less than 100% has elapsed, and before the start nothing has |
| LandingCountdown.RoundedSharesSum | frontend/components/landing/Countdown.tsx:152-158 | the shares shown as gone and as left add up to 100, or to 101 when the share ends in exactly one half |
| LandingCountdown.PercentElapsed | frontend/components/landing/Countdown.tsx:52-56 | between 0 and 100; 0 up to the start date and 100 from the deadline |
| AudioPlayer.ConvertPlaybackRate | frontend/components/audio-player.tsx:23-32 | a known code gives its rate, anything else normal speed; the rate is always one of the menu's |
| AudioPlayer.CodeOf | frontend/components/audio-player.tsx:24-30 | every menu rate has a code that maps to it |
| AudioPlayer.CodesCoverMenu | frontend/components/audio-player.tsx:23-32 | codes and menu rates convert into each other both ways |
| AudioPlayer.RateTextParses | frontend/components/audio-player.tsx:118-122 | the text stored for each menu rate parses back to that rate |
| AudioPlayer.FloatOfUnsigned | frontend/components/audio-player.tsx:38 | text starting with a digit parses as its unsigned reading |
| AudioPlayer.UnsignedWhole | frontend/components/audio-player.tsx:38 | a string of digits parses to its decimal value |
| AudioPlayer.UnsignedFraction | frontend/components/audio-player.tsx:38 | digits, a point and digits parse to the whole part plus the fraction |
| AudioPlayer.FractionBelowOne | frontend/components/audio-player.tsx:38 | the digits after the point read as a fraction below one |
| AudioPlayer.LoadRate | frontend/components/audio-player.tsx:35-46 | a non-empty stored text decides alone, applied only when it parses to a rate from 0.5 to 1.5; without one a non-empty CMS default is converted; otherwise the rate stays |
| AudioPlayer.ChosenSpeedPersists | frontend/components/audio-player.tsx:35-46 | a speed chosen in the menu is the speed of the next visit, whatever the CMS default |
| AudioPlayer.GetSpeedLabel | frontend/components/audio-player.tsx:124-127 | "Normalny" exactly at normal speed, otherwise the rate with an "x" |
| AudioPlayer.LabelText | frontend/components/audio-player.tsx:124-127 | the label text of each menu rate |
| AudioPlayer.FormatTimeParts | frontend/components/audio-player.tsx:129-134 | for a non-negative time, the seconds shown are below 60 and the minutes and seconds add back to the whole seconds |
| AudioPlayer.FullAudioUrl | frontend/components/audio-player.tsx:136-137 | an address starting with "http" is used as it is; any other is appended to the CMS base |
| AudioPlayer.StrapiBase | frontend/components/audio-player.tsx:136 | the configured base, or the local default when it is missing or empty |
| AudioPlayer.FullAudioUrlIdempotent | frontend/components/audio-player.tsx:136-137 | with an absolute base the full address is absolute, so completing it again changes nothing |
| AudioPlayer.Player.constructor | frontend/components/audio-player.tsx:13-46 | a fresh player is paused at zero, at full volume, unmuted, with the menu closed and the loaded rate |
| AudioPlayer.Player.TogglePlayPause | frontend/components/audio-player.tsx:74-84 | with an element, playing flips; without one nothing changes |
| AudioPlayer.Player.Seek | frontend/components/audio-player.tsx:86-93 | with an element, it and the display jump to the new time; without one nothing changes |
| AudioPlayer.Player.VolumeChange | frontend/components/audio-player.tsx:95-103 | with an element, the new volume is applied and muted exactly at zero; without one nothing changes |
| AudioPlayer.Player.ToggleMute | frontend/components/audio-player.tsx:105-116 | muting silences the element; unmuting restores the volume, or half volume when it is zero |
| AudioPlayer.Player.SpeedChange | frontend/components/audio-player.tsx:118-122 | the rate is applied and stored as text that loads back as the same rate, and the menu closes |
| AudioPlayer.Player.ToggleSpeedMenu | frontend/components/audio-player.tsx:253 | the speed button opens and closes the menu and changes nothing else |
| AudioPlayer.Player.SliderValue | frontend/components/audio-player.tsx:232 | the volume slider shows zero while muted, the volume otherwise |
| AudioPlayer.RateText | frontend/components/audio-player.tsx:120 | `String(rate)` for the menu rates: "0.5" to "1.5" |
| AudioPlayer.FormatTime | frontend/components/audio-player.tsx:129-134 | NaN shows "0:00"; a non-negative time ends in a colon and two digits (FormatTimeParts gives the values) |
| AudioPlayer.NoDigitIsNaN | frontend/components/audio-player.tsx:38 | text without a single decimal digit parses to NaN |
| AudioPlayer.ElementVolume | frontend/components/audio-player.tsx:95-116 | muted means silent; unmuted is never silent, a zero volume falling back to 0.5, any other volume kept |
| ArticleContent.StrapiUrl | frontend/components/article-content.tsx:12 | the configured address, or the local default when it is missing or empty |
| ArticleContent.GetImageUrl | frontend/components/article-content.tsx:15-23 | empty stays empty; http and https addresses stay as they are; a path is appended to the base with exactly one slash between |
| ArticleContent.GetImageUrlIdempotent | frontend/components/article-content.tsx:15-23 | with an absolute base every completed address is absolute, so completing it again changes nothing |
| ArticleContent.ImageUrlIgnoresSpace | frontend/components/article-content.tsx:26-30 | surrounding white space never changes the verdict |
| ArticleContent.ImageUrlIsWeb | frontend/components/article-content.tsx:26-30 | an accepted text is an http or https address, in any letter case |
| ArticleContent.ImageUrlAccepts | frontend/components/article-content.tsx:29 | every address made of a scheme, a name, a dot, an image extension and an optional query, without line breaks, is accepted |
| ArticleContent.GetTextFromChildren | frontend/components/article-content.tsx:33-46 | a string is its own text; an element gives its non-empty text, else its children's; anything else gives nothing |
| ArticleContent.ItemText | frontend/components/article-content.tsx:36-40 | an array nested in an array gives nothing; any other item reads as on its own |
| ArticleContent.ArrayTextAppend | frontend/components/article-content.tsx:35-41 | an array's text is its items' texts one after another |
| ArticleContent.SingleItemArray | frontend/components/article-content.tsx:35-41 | an array of one child reads like the child, unless the child is an array |
| ArticleContent.CaptionText | frontend/components/article-content.tsx:179-191 | a string caption as it is, an array's text and string items joined, an object's text, and otherwise nothing |
| ArticleContent.CaptionIgnoresOtherItems | frontend/components/article-content.tsx:184-188 | an array of items that are neither text blocks nor strings gives no caption |
| ArticleContent.HeadingFontSize | frontend/components/article-content.tsx:125-137 | levels 1 to 6 have a font size and no other level does |
| ArticleContent.HeadingSizesShrink | frontend/components/article-content.tsx:126-133 | each heading level is drawn smaller than the one above it |
| ArticleContent.ParagraphOf | frontend/components/article-content.tsx:138-153 | a paragraph whose whole text is an image address becomes that image, trimmed; any other stays a paragraph |
| ArticleContent.BlockView | frontend/components/article-content.tsx:121-210 | each block kind is drawn by its renderer: headings with their size, paragraphs as above, ordered or bulleted lists, links to their address, images with the completed address and a caption exactly when it has text |
| ArticleContent.Render | frontend/components/article-content.tsx:48-211 | text with a tag is raw HTML, other text is Markdown, and blocks give one view per block |
| ArticleContent.TagDetection | frontend/components/article-content.tsx:52 | text without "<" is never taken for HTML, and a lone tag always is |
| BookmarkButton.GetBookmarks | frontend/components/article-bookmark-button.tsx:29-33 | without a window, a stored entry or with the empty text the list is empty; a stored list is returned; malformed text makes `JSON.parse` throw, and only then |
| BookmarkButton.Without | frontend/components/article-bookmark-button.tsx:44 | exactly the bookmarks of other articles; a list without the article is unchanged |
| BookmarkButton.WithoutAppend | frontend/components/article-bookmark-button.tsx:44 | removal works entry by entry and keeps the order of the others |
| BookmarkButton.Button.constructor | frontend/components/article-bookmark-button.tsx:20-27 | mounting reads the stored list: bookmarked exactly when a readable list holds the article, tooltip hidden |
| BookmarkButton.Button.Toggle | frontend/components/article-bookmark-button.tsx:39-62 | throws, changing nothing, exactly on malformed storage; otherwise un-bookmarking stores the list without the article, bookmarking stores the list with a new entry appended, the button flips and the tooltip shows |
| BookmarkButton.Button.HideTooltip | frontend/components/article-bookmark-button.tsx:48 | the timer hides the tooltip and changes nothing else |
| BookmarkButton.ToggleTwiceRestores | frontend/components/article-bookmark-button.tsx:39-62 | bookmarking and then un-bookmarking an unsaved article gives back the stored list exactly |
| ArticleComments.Approved | frontend/components/article-comments.tsx:28 | exactly the approved comments |
| ArticleComments.FirstChars | frontend/components/article-comments.tsx:85 | one character per non-empty word, the first character of that word, in the words' order |
| ArticleComments.Initials | frontend/components/article-comments.tsx:85 | the first min(2, number of non-empty words) of the words' first characters, in order |
| ArticleComments.InitialsOfWords | frontend/components/article-comments.tsx:85 | a name of words separated by single spaces gives the first letters of its first two words |
| ArticleComments.InitialOfOneWord | frontend/components/article-comments.tsx:85 | a one-word name gives one initial |
| ArticleComments.Stars | frontend/components/article-comments.tsx:108-115 | five stars, star i filled exactly when i is below the rating |
| ArticleComments.StarsArePrefix | frontend/components/article-comments.tsx:108-115 | filled stars come first; all five are filled from a rating of five, none at zero or below |
| ArticleComments.AvatarOf | frontend/components/article-comments.tsx:77-87 | a photo exactly when a non-empty address is set, otherwise the initials |
| ArticleComments.Render | frontend/components/article-comments.tsx:28-144 | "Brak komentarzy" exactly when no comment is approved; otherwise the count of approved comments and, when expanded, one card per approved comment |
| ArticleComments.UnapprovedChangesNothing | frontend/components/article-comments.tsx:27-29 | adding an unapproved comment changes nothing shown |
| PyRandom.Below | backend/scripts/generate-edges.py:177 | one draw below the bound, advancing the generator by one |
| PyRandom.RandInt | backend/scripts/generate-edges.py:177 | a value between both bounds, both included |
| PyRandom.Uniform | backend/scripts/generate-edges.py:187 | a rounded weight between both bounds |
| PyRandom.Choice | backend/scripts/generate-edges.py:335-336 | an element of the non-empty list |
| PyRandom.Shuffle | backend/scripts/generate-edges.py:179 | the same elements, as a multiset, in some order |
| PyRandom.SwapKeepsMultiset | backend/scripts/generate-edges.py:179 | one swap of the shuffle loses and adds nothing |
| PyRandom.Sample | backend/scripts/generate-edges.py:205 | exactly the requested number of picks, taken without replacement from the population |
| PyRandom.PoolStep | backend/scripts/generate-edges.py:205 | one pick from the pool moves the last entry into its slot and loses nothing else |
| EdgeGenerator.Templates | backend/scripts/generate-edges.py:75-84 | every edge type has at least two label templates |
| EdgeGenerator.KeywordsSpec | backend/scripts/generate-edges.py:86-109 | the keywords are vocabulary entries, at most once each, in the order the tests run, and a keyword is present exactly when one of its probes occurs in the lower-cased title |
| EdgeGenerator.KeywordPresent | backend/scripts/generate-edges.py:89-108 | each vocabulary keyword is present exactly when one of its probes occurs |
| EdgeGenerator.TopicFrom | backend/scripts/generate-edges.py:117 | a match yields a non-empty run of characters other than "-" and ":" that the title holds right after "KSeF "; no match means no "KSeF " is followed by such a character |
| EdgeGenerator.TopicAt | backend/scripts/generate-edges.py:117 | the topic group is the longest run of topic characters after the prefix |
| EdgeGenerator.TopicFromNone | backend/scripts/generate-edges.py:117 | a title without "KSeF " and a topic character has no match |
| EdgeGenerator.TopicFallback | backend/scripts/generate-edges.py:118 | such a title takes its category as the topic |
| EdgeGenerator.GenerateLabel | backend/scripts/generate-edges.py:111-125 | the label is one of the edge type's templates filled with the target's topic or category, and consumes one draw |
| EdgeGenerator.EmitSound | backend/scripts/generate-edges.py:154-162 | appending an edge whose pair is unused and which is no self-loop keeps the edges and the used pairs consistent |
| EdgeGenerator.DuplicatePass | backend/scripts/generate-edges.py:140-163 | only "Ten sam artykuł" duplicate edges of weight 1.0 between articles sharing a slug are added, and every two such articles end up linked in at least one direction |
| EdgeGenerator.LinkGroup | backend/scripts/generate-edges.py:150-163 | every two articles of one slug group end up linked |
| EdgeGenerator.LinkFrom | backend/scripts/generate-edges.py:151-163 | one article of a slug group is linked with every later one |
| EdgeGenerator.LinkAll | backend/scripts/generate-edges.py:181-191 | each target either was linked already or gets one edge from the source with the rule's weight and label; nothing else is added |
| EdgeGenerator.Group | backend/scripts/generate-edges.py:169-171 | exactly the articles of the category |
| EdgeGenerator.Others | backend/scripts/generate-edges.py:178 | exactly the group's articles other than the given one |
| EdgeGenerator.CategoryPass | backend/scripts/generate-edges.py:167-191 | only "Podobny temat" edges of weight 0.70 to 0.85 between distinct articles of one category are added, and no article gains more than min(5, group size - 1) |
| EdgeGenerator.ClusterGroup | backend/scripts/generate-edges.py:176-191 | one category's articles each gain at most their bound |
| EdgeGenerator.DistinctCategoriesDistinctIds | backend/scripts/generate-edges.py:174 | articles of different categories never share an id, so one category's edges leave the others' counts alone |
| EdgeGenerator.LinkSamples | backend/scripts/generate-edges.py:204-243 | every added edge goes from a source to a sampled pool member with the given type and weight and a template label |
| EdgeGenerator.PrereqPass | backend/scripts/generate-edges.py:195-243 | only prerequisite edges from the first five "Podstawy" to "Wdrożenie" (0.9) or "Techniczne" (0.85) and builds-on edges from "Wdrożenie" to "Podstawy" (0.8) are added |
| EdgeGenerator.FirstShared | backend/scripts/generate-edges.py:261-268 | the keyword chosen for the label is one both lists hold, and there is none exactly when they share nothing |
| EdgeGenerator.KeywordTable | backend/scripts/generate-edges.py:249 | one keyword list per article, in catalogue order |
| EdgeGenerator.KeywordPass | backend/scripts/generate-edges.py:247-271 | only "Zobacz więcej o" edges of weight 0.75 to 0.9 from an article to a later one sharing a keyword are added, and every such pair ends up used |
| EdgeGenerator.FindById | backend/scripts/generate-edges.py:281 | the row with that id, or none exactly when no row has it |
| EdgeGenerator.HubCandidates | backend/scripts/generate-edges.py:284 | exactly the other articles of another category |
| EdgeGenerator.HubPass | backend/scripts/generate-edges.py:275-297 | only next-step edges of weight 0.6 to 0.75 from a hub to an article of another category are added, at most ten per hub; it fails exactly when a hub id is missing |
| EdgeGenerator.Endpoints | backend/scripts/generate-edges.py:303-306 | exactly the ids at either end of some edge |
| EdgeGenerator.GapCandidates | backend/scripts/generate-edges.py:312 | exactly the other articles of the same category, and the hubs |
| EdgeGenerator.GapPass | backend/scripts/generate-edges.py:301-326 | only edges of weight 0.5 to 0.7 from articles no earlier edge touches, to candidates of the same category or hubs, are added |
| EdgeGenerator.FillPass | backend/scripts/generate-edges.py:330-347 | only random edges of weight 0.4 to 0.6 between distinct articles are added, never past 490 edges, and 490 is reached exactly when reported |
| EdgeGenerator.FillOne | backend/scripts/generate-edges.py:335-347 | one attempt adds at most one edge, and adds nothing when the two picks are equal or already linked |
| EdgeGenerator.Generate | backend/scripts/generate-edges.py:131-347 | the run fails exactly when a hub is missing; otherwise the edges are consistent with the used pairs, never repeat a pair or an existing edge, and each follows one of the seven rules |
| EdgeGenerator.CatalogueUniqueIds | backend/scripts/generate-edges.py:13-64 | the catalogue has fifty rows with unique ids |
| EdgeGenerator.CatalogueHasHubs | backend/scripts/generate-edges.py:277-281 | every hub id is in the catalogue, so the hub pass never stops |
| EdgeGenerator.SqlScript | backend/scripts/generate-edges.py:360-391 | the script is the header, one block per edge numbered from 11, and the footer |
| EdgeGenerator.CountBlock | backend/scripts/generate-edges.py:370-388 | each edge block has nineteen lines, three of them INSERT statements |
| EdgeGenerator.BlocksShape | backend/scripts/generate-edges.py:367-388 | the blocks hold nineteen lines and three INSERTs per edge |
| EdgeGenerator.ScriptShape | backend/scripts/generate-edges.py:360-391 | the script opens a transaction, holds three INSERTs per edge and commits on its next-to-last line |
| EdgeGenerator.DrawWeight | backend/scripts/generate-edges.py:187 | a drawn weight lies in the rule's range, and a fixed one is used as it is |
| EdgeGenerator.DrawLabel | backend/scripts/generate-edges.py:212 | a drawn label fits the rule: the fixed text, or a template of the edge type filled from the target |
| EdgeGenerator.HubsDistinct | backend/scripts/generate-edges.py:277 | the five hub ids are distinct |
| EdgeGenerator.TagIndices | backend/scripts/generate-edges.py:86-109 | the tags found from a vocabulary position on, in ascending order, exactly those whose probes occur |
| EdgeGenerator.Keywords | backend/scripts/generate-edges.py:86-109 | every keyword is a vocabulary entry (KeywordsSpec states which) |
| EdgeGenerator.Topic | backend/scripts/generate-edges.py:116-118 | without a regex match the topic is the category; a topic other than the category comes from a title mentioning "KSeF " and holds no "-" or ":" |
| Text.TrimStart | frontend/components/article-content.tsx:28 | only leading white space is dropped, and the rest starts with a non-space |
| Text.TrimEnd | frontend/components/article-content.tsx:28 | only trailing white space is dropped, and the rest ends with a non-space |
| Text.Trim | frontend/components/article-content.tsx:28 | `trim()`: a slice of the input that neither starts nor ends with white space |
| Text.TrimIdempotent | frontend/app/mapa-wiedzy/knowledge-map-page.tsx:25 | trimming twice is trimming once |
| Text.TrimKeepsPrefix | frontend/components/article-content.tsx:28-29 | trimming keeps a prefix that neither starts nor ends with white space |
| Text.BlankIffAllSpace | frontend/app/mapa-wiedzy/knowledge-map-page.tsx:21 | a text is blank after trimming exactly when every character is white space |
| Text.Lower | frontend/app/mapa-wiedzy/knowledge-map-page.tsx:25 | `toLowerCase()`: the same length, each character lower-cased |
| Text.LowerIdempotent | frontend/app/mapa-wiedzy/knowledge-map-page.tsx:25-36 | lower-casing twice is lower-casing once |
| Text.Split | frontend/components/article-comments.tsx:85 | `split` at one character: pieces without the separator that join back to the input |
| Text.SplitJoin | frontend/components/knowledge-map-visualization.tsx:275 | splitting joined pieces that hold no separator gives the pieces back |
| Text.Words | backend/scripts/seo-check.js:43 | the words are non-empty and hold no white space; WordsJoinToNonSpace and WordsCountStarts tie them to the text |
| Text.WordPrefix | backend/scripts/seo-check.js:43 | the longest white-space-free prefix, non-empty when the text starts with a non-space |
| Text.NatToString | frontend/components/audio-player.tsx:133 | decimal digits without leading zeros |
| Text.DecimalOfNat | frontend/components/audio-player.tsx:133 | the digits written for a number read back as that number |
| Text.Pad2 | frontend/components/audio-player.tsx:133 | `padStart(2, "0")`: the text right-aligned in at least two characters with zeros in front |
| Text.ParseIntRoundTrip | backend/dist/src/api/graph/controllers/graph.js:114 | `parseInt` reads back what `String(n)` writes |
| Text.ParseInt10RoundTrip | backend/dist/src/api/graph/controllers/graph.js:114 | in base 10 `parseInt` reads back what `String(n)` writes |
| Text.ParseInt10Digits | backend/dist/src/api/graph/controllers/graph.js:114 | a string of decimal digits parses to its decimal value |
| Ordering.Insert | frontend/components/sidebar-filters.tsx:93 | inserting keeps the elements plus the new one and keeps a sorted list sorted |
| Ordering.SortBy | frontend/components/sidebar-filters.tsx:93 | `sort` with a comparator: the same elements as a multiset, in comparator order |
| Ordering.SortKeepsMembers | frontend/components/sidebar-filters.tsx:93 | sorting neither adds nor loses a member |
| Ordering.SortedDescending | frontend/components/sidebar-filters.tsx:93 | in a list sorted by descending key each key is at least every later one |
| Ordering.KeyOrdersArePreorders | frontend/components/sidebar-filters.tsx:93 | comparing by a numeric key, either way, is a total preorder |
| Ordering.LexLeTotal | frontend/app/baza-wiedzy/page.tsx:104-105 | any two texts are ordered one way or the other |
| Ordering.Take | frontend/components/sidebar-filters.tsx:138 | `slice(0, n)`: the first n elements, or all of them when there are fewer |
| Collections.Filter | frontend/components/sidebar-filters.tsx:161 | `filter`: exactly the elements satisfying the test, in their order |
| Collections.FilterAppend | frontend/components/sidebar-filters.tsx:161 | filtering a concatenation filters each part |
| Collections.FilterMultiplicity | frontend/components/sidebar-filters.tsx:161 | filtering keeps every copy of an accepted element and none of a rejected one |
| Collections.Toggle | frontend/components/sidebar-filters.tsx:159-186 | a selected item is filtered out, an unselected one appended |
| Collections.ToggleFlips | frontend/components/sidebar-filters.tsx:159-186 | a toggle flips its item's membership and keeps every other; toggling an absent item twice restores the list |
| Collections.FirstOccurrences | frontend/_from_v0/temp_v40_blog/lib/university-features.ts:143 | `Array.from(new Set(...))`: every value once, in order of first occurrence |
| Collections.FirstOccurrencesSnoc | frontend/_from_v0/temp_v40_blog/lib/university-features.ts:143 | a repeated value adds nothing; a new one is appended |
| Collections.Count | frontend/components/sidebar-filters.tsx:93 | a count never exceeds the length of the list |
| Collections.CountAppend | frontend/components/sidebar-filters.tsx:93 | counting a concatenation adds the parts' counts |
| Collections.FindIndex | backend/dist/src/api/graph/controllers/graph.js:280 | the first position whose element passes the test, or -1 exactly when none does |
| Collections.SliceTo | frontend/_from_v0/temp_v40_blog/lib/helpers.ts:98 | `slice(0, limit)`: a prefix of the list, empty when the limit is not a number |
| Text.WordsCountStarts | backend/scripts/seo-check.js:43 | from a word boundary on, the number of split words is the number of word starts: non-space characters at the start or after white space |
| Text.WordCountIsStarts | backend/scripts/seo-check.js:43 | the number of words of a text is its number of word starts |
| Text.NonSpace | backend/scripts/seo-check.js:43 | the text with its white space removed holds no white space and is no longer than the text |
| Text.WordsJoinToNonSpace | backend/scripts/seo-check.js:43 | the words joined together are exactly the text with its white space removed |
| Text.NoWordsIffBlank | backend/scripts/seo-check.js:43 | a text has no words exactly when it is all white space |
| Text.ParseInt | backend/dist/src/api/graph/controllers/graph.js:114 | text without a single decimal digit parses to NaN (ParseIntRoundTrip gives the other direction for written numbers) |
| Text.ParseMagnitude | backend/dist/src/api/graph/controllers/graph.js:114 | text that does not start with a digit has no magnitude |
| Text.IntToString | backend/dist/src/api/graph/controllers/graph.js:114 | `String(n)`: a minus sign exactly for negative numbers, followed by decimal digits only |
| Text.ContainsHead | backend/scripts/generate-edges.py:117 | a string containing `a + b` contains `a` |
| Collections.FirstOccurrencesSize | frontend/components/sidebar-filters.tsx:127-137 | the first occurrences of a list are as many as its distinct elements |
| Collections.DistinctPermutation | frontend/components/sidebar-filters.tsx:136-137 | a reordering of a list without repeats has no repeats |

## Left out

- PageRank, HITS, betweenness and the modularity-gain value of the graph service are iterative floating-point computations. Only their discrete skeletons are modelled: the guard on the gain, the pass bound and the renumbering.
- Database queries, entity-service calls and HTTP requests are left out. This covers the fetch functions of `frontend/lib/strapi.ts`, the uploads and the TTS call of the audio script, the page fetch of the SEO audit, and the posts of the import. Their results are inputs to the model.
- Console output, the SQL file write and the exit codes of the scripts are left out; they are I/O.
- `setInterval` and `setTimeout` wiring is left out, as are the migration's fire-and-forget database callbacks. Each tick or callback is a method call with the clock as a parameter.
- React rendering, framer-motion, the canvas drawing and the force-layout physics of the mind map are left out. The views are modelled as the data they show.
- `measureText` in `wrapText` is a width function passed as a parameter.
- Locale formatting is left out, because it depends on an internationalisation library: `toLocaleString`, `Intl.NumberFormat`, `formatCurrency`, `formatNumber`, and `toFixed` in `frontend/_from_v0/temp_v40_blog/lib/helpers.ts:48-53`.
- `String(x)` of a non-integer number is not modelled in general; the audio player writes only the five menu rates, which are spelled out.
- `parseFloat` is modelled for plain decimals, which is what the audio player stores. Exponent forms, "Infinity" and hexadecimal text are not modelled.
- Regex-based Markdown stripping in the audio script is a function passed as a parameter. `isImageUrl` and the `KSeF ([^-:]+)` capture are written as string predicates.
- JavaScript's `\s` covers every Unicode space. The model counts space, tab, line feed, carriage return, vertical tab, form feed and no-break space as white space.
- Strings are sequences of characters: UTF-16 surrogate pairs and the length JavaScript reports for them are not modelled.
- `toLowerCase` is modelled for ASCII and the Polish letters; other scripts are left as they are.
- `localeCompare` in the "alphabetical" sort is modelled as code-point order, because collation tables are outside the model.
- `JSON.parse` of malformed storage is modelled as a `Malformed` stored value: UserStorage falls back to the empty record, as its `try`/`catch` does, and BookmarkButton reports the uncaught exception (`None`, `thrown`). The exception text, what React does with an exception in the mount effect, and prototype-polluting keys are not modelled.
- The SQL script is produced as text. What `last_insert_rowid()` resolves to when the script runs is not modelled; the target link's id is the rowid of the source link row, which equals the new edge's id only when the two tables happen to hand out the same rowid.
- `uuid4` document ids in the SQL are a function passed as a parameter; the Mersenne Twister is replaced by injected draws.
- `mindMapGenerator` in `frontend/_from_v0/temp_v40_blog/lib/university-features.ts:140-186` only places nodes with `Math.random` and trigonometry, so it is not modelled.
- Social-share URLs, `window.open`, the clipboard and referral codes built from the clock (`generateReferralCode`) are left out; they are browser and time plumbing.
- The explanatory texts of the calculator's breakdown are left out; they are display strings. The amounts they show are modelled.
- `frontend/lib/calculator-logic.ts`, which the calculator page imports, is not part of this model. The wizard is modelled over the earlier `frontend/lib/calculator-logic-OLD.ts`, whose interface it shares.
- EdgeGenerator.FillPass: the `while len(edges) < 490` loop is bounded by a number of attempts, because its termination depends on the random draws; `reached` tells whether 490 was met.
- EdgeGenerator.FirstShared: `list(shared)[0]` depends on Python's set iteration order. The model takes the first keyword of the first list that the second holds, and the contracts about it only say "a shared keyword".
- EdgeGenerator.GenerateLabel: `.strip()` of the captured topic is modelled as the `Trim` of `text.dfy`.
- MindMap.FindPath: the contract states that a returned path is a path from the start to the end through linked nodes. It does not state that the path is shortest.
- CalculatorWizard.Wizard.Start: like every step handler of the wizard, it requires the screen that shows its button; the page never calls a handler on another screen.
- ViralShare.ShareSection.Share: `handleShare` reads `sharesCount` from its render, so two shares within one render would both test the old count. The model handles one share per render.
- CountdownTimer.Boxes: requires non-negative fields, which `calculateTimeLeft` always produces; `String` of a negative number is not modelled.
- JsNumber.JsMod: the remainder's bounds are proved for non-negative dividends only, the only ones the components pass.
- The SVG ring offset of the landing countdown and its colour classes are presentation; only the two rounded percentages are modelled.
- The Markdown and HTML branches of the article renderer are modelled as "rendered as Markdown" and "rendered as raw HTML". The rendering libraries themselves are left out.
- Ordering.SortBy: the contract states the multiset and the comparator order only. It does not state that elements with equal keys keep their input order, although the insertion does keep them.
- BookmarkButton.Button.Toggle: requires `Valid()`, so the model has no stale button. In the source, a button left stale by another tab appends a second entry for the same article (`frontend/components/article-bookmark-button.tsx:39-46`).
- PyRandom.Sample: always uses CPython's pool algorithm. CPython switches to a set-based draw for larger populations (above 21 for small samples), so the actual draws differ there. The contract (k picks, none used more often than the population holds it) is true of both algorithms.
- KnowledgeMapSearch.Layout: resolves the endpoints of every link. The force layout resolves only the links it draws, those whose two ends have an enabled category, so a link to a node outside the colour table keeps its ids and still counts on the page.
- AudioPlayer.FormatTime: takes a finite time or NaN. A stream whose duration is `Infinity` shows "Infinity:NaN" in the source, which the model has no input for.

## Findings

| source | as written | input that shows it | evidently intended | confidence | as-written member | corrected member |
|---|---|---|---|---|---|---|
| frontend/_from_v0/temp_v40_blog/lib/viral-growth.ts:116-161 | with no stored streak, `getStreak` returns a record whose last read day is today, so `updateStreak` takes the same-day branch, saves nothing and returns a streak of 0; this repeats on every later day | a reader with nothing stored, reading on any sequence of days | the first read starts a streak of one day, which is saved | not executed | ViralGrowth.UpdateStreakAsWritten, ViralGrowth.FreshStreakNeverStarts | ViralGrowth.UpdateStreak, ViralGrowth.UpdateStreakConsistent |
| frontend/_from_v0/temp_v40_blog/lib/viral-growth.ts:337-358 | `checkAndUnlock` unlocks the first achievement not yet unlocked whose threshold the value reaches, whatever action that achievement counts | `checkAndUnlock("read", 2)` once only "first_read" is unlocked unlocks "complete_category" | only achievements that count the given action can unlock | not executed | ViralGrowth.FirstQualifyingAsWritten, ViralGrowth.SecondReadCompletesCategory | ViralGrowth.FirstQualifying, ViralGrowth.ReadsUnlockOnlyReadGoals, ViralGrowth.GrowthStore.CheckAndUnlock |
| frontend/components/viral-share-section.tsx:302 | the progress line shows `3 - sharesCount` shares still needed, and sharing stays possible after the third share | a fourth share shows "Jeszcze -1 udostępnień" | the number needed stops at zero | not executed | ViralShare.RemainingAsWritten, ViralShare.RemainingGoesNegative | ViralShare.Remaining |
| frontend/app/mapa-wiedzy/knowledge-map-page.tsx:231-233 | the search results count a node's connections with the strict test `link.source === node.id` and the same test on `link.target` on the same link objects the map tab hands to the force layout, which replaces their endpoints by node objects in place (the visualization types them as a number or a node and reads `.id` when they are objects) | open the page, which starts on the map tab, let the map draw, switch to the search tab and search for any linked article: every result reads 0 connections | count the links at the node whichever form their endpoints have | not executed | KnowledgeMapSearch.LaidOutCountsZero, KnowledgeMapSearch.CountLostAfterLayout | KnowledgeMapSearch.LinkCount, KnowledgeMapSearch.LinkCountSurvivesLayout |
