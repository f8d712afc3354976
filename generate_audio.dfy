/** The audio generation script: it reads its flags, checks its configuration,
    turns each article into the text to be read out (title, excerpt, then the
    content's text, capped at 50000 characters), skips articles that already
    have audio or whose text is too short, and counts how each article ends. */
module GenerateAudio {
  import opened Wrappers
  import opened Collections
  import opened Text

  // ----- Command line -------------------------------------------------------

  /** The `--limit` option: absent (`null`), or the result of `parseInt` on the
      argument after it, `None` standing for `NaN`. */
  datatype LimitArg = NoLimit | Limit(parsed: Option<int>)

  datatype Options = Options(isDryRun: bool, skipExisting: bool, limit: LimitArg)

  /** `process.argv.slice(2)` read for `--dry-run`, `--skip-existing` and `--limit n`;
      a `--limit` with nothing after it parses `undefined`, which is `NaN`. */
  function ParseArgs(args: seq<string>): (o: Options)
    ensures o.isDryRun <==> "--dry-run" in args
    ensures o.skipExisting <==> "--skip-existing" in args
    ensures o.limit.NoLimit? <==> "--limit" !in args
    ensures o.limit.Limit? ==> exists i :: 0 <= i < |args| && args[i] == "--limit"
                                 && (forall j :: 0 <= j < i ==> args[j] != "--limit")
                                 && o.limit.parsed == (if i + 1 < |args| then ParseInt(args[i + 1]) else None)
  {
    var k := FindIndex(args, a => a == "--limit");
    var limit := if k == -1 then NoLimit
                 else Limit(if k + 1 < |args| then ParseInt(args[k + 1]) else None);
    assert k != -1 ==> 0 <= k < |args| && args[k] == "--limit" && (forall j :: 0 <= j < k ==> args[j] != "--limit");
    Options("--dry-run" in args, "--skip-existing" in args, limit)
  }

  /** The page size asked of the articles endpoint, `limit || 1000`: a missing,
      `NaN` or zero limit asks for 1000. */
  function PageSize(limit: LimitArg): (n: int)
    ensures limit.Limit? && limit.parsed.Some? && limit.parsed.value != 0 ==> n == limit.parsed.value
    ensures limit.NoLimit? || limit.parsed.None? || limit.parsed.value == 0 ==> n == 1000
  {
    if limit.Limit? && limit.parsed.Some? && limit.parsed.value != 0 then limit.parsed.value else 1000
  }

  /** `--limit n` with a number written out asks for that many articles (1000 for 0). */
  lemma LimitRoundTrip(n: int)
    ensures ParseArgs(["--limit", IntToString(n)]).limit == Limit(Some(n))
    ensures PageSize(ParseArgs(["--limit", IntToString(n)]).limit) == if n == 0 then 1000 else n
  {
    ParseIntRoundTrip(n);
  }

  /** A trailing `--limit` parses `undefined`: `NaN`, which asks for 1000 articles. */
  lemma TrailingLimit(args: seq<string>)
    requires "--limit" !in args
    ensures ParseArgs(args + ["--limit"]).limit == Limit(None)
    ensures PageSize(ParseArgs(args + ["--limit"]).limit) == 1000
  {
    var all := args + ["--limit"];
    var k := FindIndex(all, a => a == "--limit");
    assert all[|args|] == "--limit";
    assert k == |args|;
  }

  // ----- Configuration ------------------------------------------------------

  /** An environment variable with its placeholder default: `process.env.X || placeholder`. */
  function Setting(env: Option<string>, placeholder: string): string {
    if env.Some? && env.value != [] then env.value else placeholder
  }

  /** A setting is usable when it is non-empty and does not contain `YOUR_`. */
  predicate Usable(value: string) {
    value != [] && !Contains(value, "YOUR_")
  }

  const TokenPlaceholder := "YOUR_STRAPI_API_TOKEN_HERE"
  const KeyPlaceholder := "YOUR_ELEVENLABS_API_KEY_HERE"
  const VoicePlaceholder := "YOUR_VOICE_ID_HERE"

  /** The placeholders are never usable, so an unset variable is reported. */
  lemma PlaceholdersUnusable()
    ensures !Usable(TokenPlaceholder) && !Usable(KeyPlaceholder) && !Usable(VoicePlaceholder)
  {
    assert OccursAt(TokenPlaceholder, "YOUR_", 0);
    assert OccursAt(KeyPlaceholder, "YOUR_", 0);
    assert OccursAt(VoicePlaceholder, "YOUR_", 0);
  }

  const TokenMissing := "STRAPI_API_TOKEN is not set. Set it in .env or environment."
  const KeyMissing := "ELEVENLABS_API_KEY is not set. Set it in .env or environment."
  const VoiceMissing := "ELEVENLABS_VOICE_ID is not set. Set it in .env or environment."

  /** One message when `failing`, none otherwise. */
  function ErrorIf(failing: bool, message: string): (r: seq<string>)
    ensures |r| == if failing then 1 else 0
    ensures failing ==> r == [message]
  {
    if failing then [message] else []
  }

  /** `validateConfig`: the errors it reports, in order; the script stops when there is any.
      One message per unusable setting; the key and the voice are checked only in a real run. */
  function ConfigErrors(token: string, key: string, voice: string, isDryRun: bool): (errors: seq<string>)
    ensures |errors| == (if !Usable(token) then 1 else 0) + (if !isDryRun && !Usable(key) then 1 else 0)
                        + (if !isDryRun && !Usable(voice) then 1 else 0)
    ensures errors == [] <==> Usable(token) && (isDryRun || (Usable(key) && Usable(voice)))
    ensures isDryRun ==> |errors| <= 1
    ensures !Usable(token) ==> errors[0] == TokenMissing
  {
    ErrorIf(!Usable(token), TokenMissing) + ErrorIf(!isDryRun && !Usable(key), KeyMissing)
    + ErrorIf(!isDryRun && !Usable(voice), VoiceMissing)
  }

  /** With no environment at all the token is always reported, and in a real run so are the key and the voice. */
  lemma EmptyEnvironmentFails(isDryRun: bool)
    ensures var errors := ConfigErrors(Setting(None, TokenPlaceholder), Setting(None, KeyPlaceholder),
                                       Setting(None, VoicePlaceholder), isDryRun);
      |errors| == if isDryRun then 1 else 3
  {
    PlaceholdersUnusable();
  }

  // ----- Text extraction ----------------------------------------------------

  /** A text child of a block: `child.text`, absent or present. */
  datatype Inline = Inline(text: Option<string>)

  /** A list item and its text children, which may be absent. */
  datatype Item = Item(children: Option<seq<Inline>>)

  /** The Strapi blocks the script reads; any other block type is `OtherBlock`. */
  datatype ContentBlock =
    | ParagraphBlock(children: Option<seq<Inline>>)
    | HeadingBlock(children: Option<seq<Inline>>)
    | ListBlock(items: Option<seq<Item>>)
    | OtherBlock

  /** An article's `content`: a Markdown string, an array of blocks, or some other value. */
  datatype Content = Missing | Markdown(s: string) | Blocks(blocks: seq<ContentBlock>) | OtherValue

  /** `children.map(child => child.text || '').join('')`. */
  function InlineText(children: seq<Inline>): (r: string)
    ensures (forall i :: 0 <= i < |children| ==> children[i].text.GetOr("") == []) <==> r == []
  {
    if children == [] then [] else children[0].text.GetOr("") + InlineText(children[1..])
  }

  function ItemTexts(items: seq<Item>): (r: seq<string>)
    ensures |r| == |items|
    ensures forall i :: 0 <= i < |items| ==> r[i] == (if items[i].children.Some? then InlineText(items[i].children.value) else "")
  {
    if items == [] then [] else [if items[0].children.Some? then InlineText(items[0].children.value) else ""] + ItemTexts(items[1..])
  }

  /** The text of one block: its children's text for a paragraph or heading, the
      items' texts on separate lines for a list, nothing otherwise. */
  function BlockText(b: ContentBlock): string {
    match b
    case ParagraphBlock(children) => if children.Some? then InlineText(children.value) else ""
    case HeadingBlock(children) => if children.Some? then InlineText(children.value) else ""
    case ListBlock(items) => if items.Some? then Join(ItemTexts(items.value), "\n") else ""
    case OtherBlock => ""
  }

  function BlockTexts(blocks: seq<ContentBlock>): (r: seq<string>)
    ensures |r| == |blocks| && forall i :: 0 <= i < |blocks| ==> r[i] == BlockText(blocks[i])
  {
    if blocks == [] then [] else [BlockText(blocks[0])] + BlockTexts(blocks[1..])
  }

  predicate NonEmpty(s: string) {
    s != []
  }

  /** `extractTextFromContent(content)`: the Markdown string with its markup
      removed (by `stripMarkdown`) and trimmed, the blocks' non-empty texts
      separated by blank lines, and nothing for any other or falsy content. */
  function ExtractText(content: Content, stripMarkdown: string -> string): (r: string)
    ensures content.Missing? || content.OtherValue? ==> r == []
    ensures content.Markdown? && content.s == [] ==> r == []
    ensures content.Markdown? && content.s != [] ==> r == Trim(stripMarkdown(content.s))
    ensures content.Blocks? ==> r == Join(Filter(BlockTexts(content.blocks), NonEmpty), "\n\n")
  {
    match content
    case Missing => ""
    case Markdown(s) => if s == [] then "" else Trim(stripMarkdown(s))
    case Blocks(blocks) => Join(Filter(BlockTexts(blocks), NonEmpty), "\n\n")
    case OtherValue => ""
  }

  /** Joining strings none of which is empty gives the empty string only for no strings. */
  lemma {:induction false} JoinOfNonEmpty(parts: seq<string>, sep: string)
    requires forall i :: 0 <= i < |parts| ==> parts[i] != []
    ensures Join(parts, sep) == [] <==> parts == []
  {
  }

  /** The blocks give no text exactly when none of them has any text of its own. */
  lemma BlocksTextEmpty(blocks: seq<ContentBlock>)
    ensures ExtractText(Blocks(blocks), s => s) == [] <==> forall i :: 0 <= i < |blocks| ==> BlockText(blocks[i]) == []
  {
    var texts := BlockTexts(blocks);
    var kept := Filter(texts, NonEmpty);
    JoinOfNonEmpty(kept, "\n\n");
    if kept == [] {
      forall i | 0 <= i < |blocks| ensures BlockText(blocks[i]) == [] {
        assert texts[i] in texts;
      }
    } else {
      assert kept[0] in texts;
    }
  }

  /** Blocks of other types contribute nothing: dropping them leaves the text unchanged. */
  lemma {:induction false} OtherBlocksIgnored(blocks: seq<ContentBlock>)
    ensures BlockTexts(blocks + [OtherBlock]) == BlockTexts(blocks) + [""]
    ensures Filter(BlockTexts(blocks + [OtherBlock]), NonEmpty) == Filter(BlockTexts(blocks), NonEmpty)
  {
    BlockTextsSnoc(blocks, OtherBlock);
    FilterAppend(BlockTexts(blocks), [""], NonEmpty);
    assert Filter([""], NonEmpty) == [];
  }

  /** The texts of one more block are the texts so far and that block's own. */
  lemma BlockTextsSnoc(blocks: seq<ContentBlock>, b: ContentBlock)
    ensures BlockTexts(blocks + [b]) == BlockTexts(blocks) + [BlockText(b)]
  {
    var l, r := BlockTexts(blocks + [b]), BlockTexts(blocks) + [BlockText(b)];
    forall i | 0 <= i < |l| ensures l[i] == r[i] {
      assert (blocks + [b])[i] == if i < |blocks| then blocks[i] else b;
    }
  }

  // ----- Audio text ---------------------------------------------------------

  const MaxChars := 50000

  /** The text before the cap: `title.`, a blank line, the excerpt and a blank
      line when there is one, then the content's text. */
  function Uncapped(t: string, e: string, text: string): (raw: string)
    ensures StartsWith(raw, t + ".")
    ensures e != [] ==> StartsWith(raw, t + ".\n\n" + e)
    ensures e == [] ==> raw == t + ".\n\n" + text
  {
    var raw := t + ".\n\n" + (if e != [] then e + "\n\n" else "") + text;
    assert raw[..|t| + 1] == t + ".";
    assert e != [] ==> raw[..|t| + 3 + |e|] == t + ".\n\n" + e;
    raw
  }

  /** The cap: text over 50000 characters is cut to 50000 and `...` appended. */
  function Capped(raw: string): (r: string)
    ensures |r| <= MaxChars + 3
    ensures |raw| <= MaxChars ==> r == raw
    ensures forall p :: |p| <= MaxChars && StartsWith(raw, p) ==> StartsWith(r, p)
  {
    if |raw| > MaxChars then raw[..MaxChars] + "..." else raw
  }

  /** A title that does not start with white space survives the trim, followed
      by its full stop... */
  lemma TitleSurvives(t: string, e: string, text: string)
    requires (t == [] || !IsSpace(t[0])) && |t| < MaxChars
    ensures StartsWith(Trim(Capped(Uncapped(t, e, text))), t + ".")
  {
    var p := t + ".";
    assert p[0] == (if t == [] then '.' else t[0]);
    TrimKeepsPrefix(Capped(Uncapped(t, e, text)), p);
  }

  /** ... and so does an excerpt that does not end in white space, after the title and a blank line. */
  lemma ExcerptSurvives(t: string, e: string, text: string)
    requires (t == [] || !IsSpace(t[0])) && e != [] && !IsSpace(e[|e| - 1]) && |t| + 3 + |e| <= MaxChars
    ensures StartsWith(Trim(Capped(Uncapped(t, e, text))), t + ".\n\n" + e)
  {
    var p := t + ".\n\n" + e;
    assert p[0] == (if t == [] then '.' else t[0]);
    assert p[|p| - 1] == e[|e| - 1];
    TrimKeepsPrefix(Capped(Uncapped(t, e, text)), p);
  }

  /** `createAudioText(article)`: the uncapped text built up step by step,
      capped and trimmed. */
  method CreateAudioText(title: Option<string>, excerpt: Option<string>, content: Content, stripMarkdown: string -> string)
    returns (audioText: string)
    ensures audioText == Trim(Capped(Uncapped(title.GetOr(""), excerpt.GetOr(""), ExtractText(content, stripMarkdown))))
    ensures |audioText| <= MaxChars + 3
  {
    var t := title.GetOr("");
    var e := excerpt.GetOr("");
    var text := ExtractText(content, stripMarkdown);
    var raw := t + ".\n\n";
    if e != [] {
      raw := raw + e + "\n\n";
    }
    raw := raw + text;
    assert raw == Uncapped(t, e, text);
    if |raw| > MaxChars {
      raw := raw[..MaxChars] + "...";
    }
    audioText := Trim(raw);
  }

  /** Texts under 100 characters are not worth generating. */
  const MinChars := 100

  // ----- Processing loop ----------------------------------------------------

  /** The attributes of a fetched article the loop uses. */
  datatype Article = Article(title: Option<string>, excerpt: Option<string>, content: Content, hasAudio: bool)

  /** An article together with how its two network calls would go: whether the
      speech service returns audio and whether the upload succeeds. */
  datatype Trial = Trial(article: Article, speechOk: bool, uploadOk: bool)

  /** How one article ends. */
  datatype Status = Generated | Skipped | Failed

  /** The audio text of an article. */
  function AudioTextOf(a: Article, strip: string -> string): string {
    Trim(Capped(Uncapped(a.title.GetOr(""), a.excerpt.GetOr(""), ExtractText(a.content, strip))))
  }

  /** The fate of an article: skipped when it has audio and existing audio is
      skipped, or when its text is under 100 characters; failed when the
      speech service returns nothing (always, in a dry run) or the upload
      fails; generated otherwise. */
  function StatusOf(tr: Trial, textLength: nat, skipExisting: bool, isDryRun: bool): Status {
    if skipExisting && tr.article.hasAudio then Skipped
    else if textLength < MinChars then Skipped
    else if isDryRun || !tr.speechOk then Failed
    else if !tr.uploadOk then Failed
    else Generated
  }

  /** Generation needs a real run, a long enough text and both calls to succeed. */
  lemma GeneratedIff(tr: Trial, textLength: nat, skipExisting: bool, isDryRun: bool)
    ensures StatusOf(tr, textLength, skipExisting, isDryRun) == Generated <==>
      !isDryRun && !(skipExisting && tr.article.hasAudio) && textLength >= MinChars && tr.speechOk && tr.uploadOk
  {
  }

  /** The status the script gives a trial. */
  function Outcome(strip: string -> string, skipExisting: bool, isDryRun: bool, tr: Trial): Status {
    StatusOf(tr, |AudioTextOf(tr.article, strip)|, skipExisting, isDryRun)
  }

  /** The status of every trial, in order. */
  function Statuses(trials: seq<Trial>, strip: string -> string, skipExisting: bool, isDryRun: bool): (r: seq<Status>)
    ensures |r| == |trials|
    ensures forall i :: 0 <= i < |trials| ==> r[i] == Outcome(strip, skipExisting, isDryRun, trials[i])
  {
    seq(|trials|, i requires 0 <= i < |trials| => Outcome(strip, skipExisting, isDryRun, trials[i]))
  }

  /** The number of trials that end with `status`. */
  function Tally(statuses: seq<Status>, status: Status): (n: nat)
    ensures n <= |statuses|
  {
    if statuses == [] then 0
    else Tally(statuses[..|statuses| - 1], status) + (if statuses[|statuses| - 1] == status then 1 else 0)
  }

  /** Tallying one more trial. */
  lemma TallyStep(statuses: seq<Status>, i: nat, status: Status)
    requires i < |statuses|
    ensures Tally(statuses[..i + 1], status) == Tally(statuses[..i], status) + (if statuses[i] == status then 1 else 0)
  {
    assert statuses[..i + 1][..i] == statuses[..i];
  }

  /** Each trial ends in one of three ways, so the tallies add up to the number of trials. */
  lemma {:induction false} TalliesAddUp(statuses: seq<Status>)
    ensures Tally(statuses, Generated) + Tally(statuses, Skipped) + Tally(statuses, Failed) == |statuses|
  {
    if statuses != [] {
      TalliesAddUp(statuses[..|statuses| - 1]);
    }
  }

  /** A status no trial has is tallied zero times. */
  lemma {:induction false} TallyAbsent(statuses: seq<Status>, status: Status)
    requires forall i :: 0 <= i < |statuses| ==> statuses[i] != status
    ensures Tally(statuses, status) == 0
  {
    if statuses != [] {
      TallyAbsent(statuses[..|statuses| - 1], status);
    }
  }

  /** A dry run generates nothing. */
  lemma DryRunTally(trials: seq<Trial>, strip: string -> string, skipExisting: bool)
    ensures Tally(Statuses(trials, strip, skipExisting, true), Generated) == 0
  {
    TallyAbsent(Statuses(trials, strip, skipExisting, true), Generated);
  }

  /** `processArticles` over the fetched articles: every article is processed,
      each counter counts the articles with that status, and the three add up;
      a dry run generates nothing. */
  method ProcessArticles(trials: seq<Trial>, strip: string -> string, skipExisting: bool, isDryRun: bool)
    returns (processed: nat, generated: nat, skipped: nat, failed: nat)
    ensures processed == |trials|
    ensures generated == Tally(Statuses(trials, strip, skipExisting, isDryRun), Generated)
    ensures skipped == Tally(Statuses(trials, strip, skipExisting, isDryRun), Skipped)
    ensures failed == Tally(Statuses(trials, strip, skipExisting, isDryRun), Failed)
    ensures generated + skipped + failed == processed
  {
    ghost var ss := Statuses(trials, strip, skipExisting, isDryRun);
    processed, generated, skipped, failed := 0, 0, 0, 0;
    if |trials| == 0 {
      return;
    }
    for i := 0 to |trials|
      invariant processed == i
      invariant generated == Tally(ss[..i], Generated)
      invariant skipped == Tally(ss[..i], Skipped)
      invariant failed == Tally(ss[..i], Failed)
    {
      processed := processed + 1;
      var status := ProcessOne(trials[i], strip, skipExisting, isDryRun);
      generated, skipped, failed := Bump(ss, i, status, generated, skipped, failed);
    }
    assert ss[..|trials|] == ss;
    TalliesAddUp(ss);
  }

  /** Bumps the counter of the `i`th trial's status. */
  method Bump(ghost statuses: seq<Status>, ghost i: nat, status: Status, generated: nat, skipped: nat, failed: nat)
    returns (generated': nat, skipped': nat, failed': nat)
    requires i < |statuses| && status == statuses[i]
    requires generated == Tally(statuses[..i], Generated)
    requires skipped == Tally(statuses[..i], Skipped)
    requires failed == Tally(statuses[..i], Failed)
    ensures generated' == Tally(statuses[..i + 1], Generated)
    ensures skipped' == Tally(statuses[..i + 1], Skipped)
    ensures failed' == Tally(statuses[..i + 1], Failed)
  {
    TallyStep(statuses, i, Generated);
    TallyStep(statuses, i, Skipped);
    TallyStep(statuses, i, Failed);
    generated', skipped', failed' := generated, skipped, failed;
    if status == Generated {
      generated' := generated' + 1;
    } else if status == Skipped {
      skipped' := skipped' + 1;
    } else {
      failed' := failed' + 1;
    }
  }

  /** The loop body for one article: the checks in the order the script makes them. */
  method ProcessOne(tr: Trial, strip: string -> string, skipExisting: bool, isDryRun: bool) returns (status: Status)
    ensures status == Outcome(strip, skipExisting, isDryRun, tr)
    ensures isDryRun ==> status != Generated
  {
    var a := tr.article;
    if skipExisting && a.hasAudio {
      return Skipped;
    }
    var audioText := CreateAudioText(a.title, a.excerpt, a.content, strip);
    if |audioText| < MinChars {
      return Skipped;
    }
    var buffer := !isDryRun && tr.speechOk;
    if !buffer {
      return Failed;
    }
    if tr.uploadOk {
      status := Generated;
    } else {
      status := Failed;
    }
  }
}
