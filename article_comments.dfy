/** The comments panel under an article: only approved comments are shown
    and counted; each shows an avatar (the photo or the author's initials)
    and five stars filled up to the rating. */
module ArticleComments {
  import opened Wrappers
  import opened Collections
  import opened Ordering
  import opened Text

  datatype Comment = Comment(
    id: int, authorName: string, authorEmail: string, avatarUrl: Option<string>,
    content: string, rating: int, isApproved: bool, createdAt: string)

  function Approved(comments: seq<Comment>): (r: seq<Comment>)
    ensures forall c :: c in r <==> c in comments && c.isApproved
    ensures |r| <= |comments|
  {
    Filter(comments, (c: Comment) => c.isApproved)
  }

  predicate NonEmpty(w: string) {
    w != []
  }

  /** `n[0]` of each space-separated word, where an empty word gives nothing:
      one character per non-empty word, its first, in order. */
  function FirstChars(words: seq<string>): (r: string)
    ensures |r| <= |words|
    ensures |r| == |Filter(words, NonEmpty)|
    ensures forall k :: 0 <= k < |r| ==> r[k] == Filter(words, NonEmpty)[k][0]
  {
    if words == [] then []
    else (if words[0] == [] then [] else [words[0][0]]) + FirstChars(words[1..])
  }

  /** The avatar's initials: the first character of each word of the name, at most two. */
  function Initials(authorName: string): (r: string)
    ensures |r| <= 2 && |r| <= |FirstChars(Split(authorName, ' '))|
    ensures |r| == Min(2, |FirstChars(Split(authorName, ' '))|)
    ensures r == FirstChars(Split(authorName, ' '))[..|r|]
  {
    Take(FirstChars(Split(authorName, ' ')), 2)
  }

  /** For a name of words separated by single spaces, the initials are the
      first letters of its first two words. */
  lemma InitialsOfWords(words: seq<string>)
    requires |words| >= 2
    requires forall i :: 0 <= i < |words| ==> words[i] != [] && ' ' !in words[i]
    ensures Initials(Join(words, " ")) == [words[0][0], words[1][0]]
  {
    SplitJoin(words, ' ');
    FirstTwo(words);
  }

  lemma FirstTwo(words: seq<string>)
    requires |words| >= 2 && words[0] != [] && words[1] != []
    ensures |FirstChars(words)| >= 2 && FirstChars(words)[..2] == [words[0][0], words[1][0]]
  {
    assert FirstChars(words) == [words[0][0]] + FirstChars(words[1..]);
    assert FirstChars(words[1..]) == [words[1][0]] + FirstChars(words[2..]);
  }

  /** A one-word name gives one initial. */
  lemma InitialOfOneWord(name: string)
    requires name != [] && ' ' !in name
    ensures Initials(name) == [name[0]]
  {
    SplitJoin([name], ' ');
    assert Join([name], [' ']) == name;
  }

  /** The five stars: star i is filled exactly when i is below the rating. */
  function Stars(rating: int): (r: seq<bool>)
    ensures |r| == 5
    ensures forall i :: 0 <= i < 5 ==> (r[i] <==> i < rating)
  {
    seq(5, i => i < rating)
  }

  /** The filled stars come first; all five are filled from a rating of five, none at zero or below. */
  lemma StarsArePrefix(rating: int, i: int, j: int)
    requires 0 <= i <= j < 5
    ensures Stars(rating)[j] ==> Stars(rating)[i]
    ensures (forall k :: 0 <= k < 5 ==> Stars(rating)[k]) <==> rating >= 5
    ensures (forall k :: 0 <= k < 5 ==> !Stars(rating)[k]) <==> rating <= 0
  {
    assert Stars(rating)[4] <==> 4 < rating;
    assert Stars(rating)[0] <==> 0 < rating;
  }

  datatype Avatar = Photo(url: string) | InitialsBadge(text: string)

  /** A non-empty photo URL is shown; otherwise the initials. */
  function AvatarOf(c: Comment): (a: Avatar)
    ensures a.Photo? <==> c.avatarUrl.Some? && c.avatarUrl.value != []
    ensures a.Photo? ==> a.url == c.avatarUrl.value
    ensures a.InitialsBadge? ==> a.text == Initials(c.authorName)
  {
    if c.avatarUrl.Some? && c.avatarUrl.value != [] then Photo(c.avatarUrl.value)
    else InitialsBadge(Initials(c.authorName))
  }

  datatype Card = Card(comment: Comment, avatar: Avatar, stars: seq<bool>)

  datatype Panel =
    | NoComments
    | Collapsed(count: nat)
    | Expanded(count: nat, cards: seq<Card>)

  /** The panel: "Brak komentarzy" without approved comments, otherwise the
      header with their count and, when expanded, one card per approved comment. */
  function Render(comments: seq<Comment>, isExpanded: bool): (p: Panel)
    ensures p.NoComments? <==> forall c :: c in comments ==> !c.isApproved
    ensures p.Collapsed? ==> !isExpanded && p.count == |Approved(comments)|
    ensures p.Expanded? ==> isExpanded && p.count == |Approved(comments)| && |p.cards| == p.count
    ensures p.Expanded? ==> forall i :: 0 <= i < |p.cards| ==>
      p.cards[i].comment == Approved(comments)[i]
      && p.cards[i].avatar == AvatarOf(Approved(comments)[i])
      && p.cards[i].stars == Stars(Approved(comments)[i].rating)
  {
    var approved := Approved(comments);
    if |approved| == 0 then
      assert forall c :: c in comments ==> !c.isApproved;
      NoComments
    else
      assert approved[0] in approved;
      if !isExpanded then Collapsed(|approved|)
      else
        Expanded(|approved|, seq(|approved|, i requires 0 <= i < |approved| =>
          Card(approved[i], AvatarOf(approved[i]), Stars(approved[i].rating))))
  }

  /** The count in the header is the number of approved comments, whatever
      the unapproved ones; adding an unapproved comment changes nothing. */
  lemma UnapprovedChangesNothing(comments: seq<Comment>, c: Comment, isExpanded: bool)
    requires !c.isApproved
    ensures Render(comments + [c], isExpanded) == Render(comments, isExpanded)
  {
    FilterAppend(comments, [c], (x: Comment) => x.isApproved);
    assert Approved(comments + [c]) == Approved(comments);
  }
}
