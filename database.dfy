/**
 * The rows the core reads and writes, after reviews/models.py: one map per
 * table from id to row, the constraints the models declare as an invariant
 * (unique usernames, emails and slugs, one review per title and author,
 * scores in range, years not in the future, foreign keys that resolve), and
 * the inserts, updates and deletes the views perform, with the on_delete
 * behaviour of every foreign key. Ids come from one counter and pub_date
 * from one clock; both only grow.
 */
module Database {
  import opened Wrappers
  import opened Users
  import opened Catalog

  /** A confirmation code handed to the mail server for one address. */
  datatype Mail = Mail(to: string, code: string)

  // ---------------------------------------------------------------- listings

  /** The ids below n of the reviews of title t, highest first. */
  function ReviewIdsBelow(reviews: map<nat, Review>, t: nat, n: nat): (ks: seq<nat>)
    ensures forall i :: 0 <= i < |ks| ==> ks[i] < n && ks[i] in reviews && reviews[ks[i]].title == t
    ensures forall i, j :: 0 <= i < j < |ks| ==> ks[i] > ks[j]
    ensures forall k :: 0 <= k < n && k in reviews && reviews[k].title == t ==> k in ks
  {
    if n == 0 then []
    else
      var rest := ReviewIdsBelow(reviews, t, n - 1);
      if n - 1 in reviews && reviews[n - 1].title == t then [n - 1] + rest else rest
  }

  /** The ids below n of the comments on review r, highest first. */
  function CommentIdsBelow(comments: map<nat, Comment>, r: nat, n: nat): (ks: seq<nat>)
    ensures forall i :: 0 <= i < |ks| ==> ks[i] < n && ks[i] in comments && comments[ks[i]].review == r
    ensures forall i, j :: 0 <= i < j < |ks| ==> ks[i] > ks[j]
    ensures forall k :: 0 <= k < n && k in comments && comments[k].review == r ==> k in ks
  {
    if n == 0 then []
    else
      var rest := CommentIdsBelow(comments, r, n - 1);
      if n - 1 in comments && comments[n - 1].review == r then [n - 1] + rest else rest
  }

  // ------------------------------------------------------------------ rating

  /** Whether id k below n holds a review of title t. */
  predicate CountedIn(reviews: map<nat, Review>, t: nat, n: nat, k: nat)
  {
    k < n && k in reviews && reviews[k].title == t
  }

  /** How many reviews with ids below n title t has. */
  function ReviewCount(reviews: map<nat, Review>, t: nat, n: nat): nat
  {
    if n == 0 then 0
    else ReviewCount(reviews, t, n - 1) + (if CountedIn(reviews, t, n, n - 1) then 1 else 0)
  }

  /** The sum of the scores of those reviews. */
  function ScoreTotal(reviews: map<nat, Review>, t: nat, n: nat): int
  {
    if n == 0 then 0
    else ScoreTotal(reviews, t, n - 1) + (if CountedIn(reviews, t, n, n - 1) then reviews[n - 1].score else 0)
  }

  /**
   * Avg('reviews__score') for title t: the mean score of its reviews as an
   * exact rational, None when it has none.
   */
  function RatingOf(reviews: map<nat, Review>, t: nat, n: nat): (r: Option<real>)
    ensures r.None? <==> ReviewCount(reviews, t, n) == 0
    ensures r.Some? ==> r.value * ReviewCount(reviews, t, n) as real == ScoreTotal(reviews, t, n) as real
  {
    var count := ReviewCount(reviews, t, n);
    if count == 0 then None else Some(ScoreTotal(reviews, t, n) as real / count as real)
  }

  predicate ScoresValid(reviews: map<nat, Review>)
  {
    forall k :: k in reviews ==> ValidScore(reviews[k].score)
  }

  /** A title has a review below n exactly when its count is positive. */
  lemma {:induction false} CountPositiveIff(reviews: map<nat, Review>, t: nat, n: nat)
    ensures ReviewCount(reviews, t, n) > 0 <==> exists k :: k < n && k in reviews && reviews[k].title == t
  {
    if n > 0 {
      CountPositiveIff(reviews, t, n - 1);
      if CountedIn(reviews, t, n, n - 1) {
        assert n - 1 < n && n - 1 in reviews && reviews[n - 1].title == t;
      } else if exists k :: k < n && k in reviews && reviews[k].title == t {
        var k :| k < n && k in reviews && reviews[k].title == t;
        assert k < n - 1;
      }
    }
  }

  /** With every score in 1..10, the total of c reviews lies between c and 10c. */
  lemma {:induction false} TotalBounds(reviews: map<nat, Review>, t: nat, n: nat)
    requires ScoresValid(reviews)
    ensures MinScore * ReviewCount(reviews, t, n) <= ScoreTotal(reviews, t, n) <= MaxScore * ReviewCount(reviews, t, n)
  {
    if n > 0 {
      TotalBounds(reviews, t, n - 1);
      if CountedIn(reviews, t, n, n - 1) {
        assert ValidScore(reviews[n - 1].score);
      }
    }
  }

  /** A mean of c values, each in 1..10, is in 1..10 too. */
  lemma MeanBounds(s: int, c: nat)
    requires c > 0 && c <= s <= 10 * c
    ensures 1.0 <= s as real / c as real <= 10.0
  {
    var q, cr, sr := s as real / c as real, c as real, s as real;
    assert q * cr == sr;
    assert (1.0 - q) * cr == cr - q * cr;
    assert (q - 10.0) * cr == q * cr - 10.0 * cr;
  }

  /**
   * The rating is absent exactly when the title has no review, and
   * otherwise lies on the 1..10 scale of the scores.
   */
  lemma RatingWithinScale(reviews: map<nat, Review>, t: nat, n: nat)
    requires ScoresValid(reviews)
    ensures RatingOf(reviews, t, n).None? <==> !exists k :: k < n && k in reviews && reviews[k].title == t
    ensures RatingOf(reviews, t, n).Some? ==> 1.0 <= RatingOf(reviews, t, n).value <= 10.0
  {
    CountPositiveIff(reviews, t, n);
    if ReviewCount(reviews, t, n) > 0 {
      TotalBounds(reviews, t, n);
      MeanBounds(ScoreTotal(reviews, t, n), ReviewCount(reviews, t, n));
    }
  }

  /** Count and total read only the reviews of t below n, and of those only the score. */
  lemma {:induction false} FiguresAgree(m1: map<nat, Review>, m2: map<nat, Review>, t: nat, n: nat)
    requires forall k :: k < n ==> ((k in m1 && m1[k].title == t) <==> (k in m2 && m2[k].title == t))
    requires forall k :: k < n && k in m1 && m1[k].title == t ==> m1[k].score == m2[k].score
    ensures ReviewCount(m1, t, n) == ReviewCount(m2, t, n)
    ensures ScoreTotal(m1, t, n) == ScoreTotal(m2, t, n)
  {
    if n > 0 {
      FiguresAgree(m1, m2, t, n - 1);
    }
  }

  /**
   * Storing a review under a fresh id n, above every id in use, adds one to
   * the count of its title and its score to the total, and leaves every
   * other title's figures alone.
   */
  lemma RatingAfterInsert(reviews: map<nat, Review>, t: nat, n: nat, r: Review)
    requires forall k :: k in reviews ==> k < n
    ensures ReviewCount(reviews[n := r], t, n + 1) == ReviewCount(reviews, t, n) + (if r.title == t then 1 else 0)
    ensures ScoreTotal(reviews[n := r], t, n + 1) == ScoreTotal(reviews, t, n) + (if r.title == t then r.score else 0)
  {
    FiguresAgree(reviews[n := r], reviews, t, n);
  }

  /** Deleting review d takes one from the count of its title and leaves every other count alone. */
  lemma {:induction false} CountAfterRemove(reviews: map<nat, Review>, t: nat, n: nat, d: nat)
    ensures ReviewCount(reviews - {d}, t, n) + (if CountedIn(reviews, t, n, d) then 1 else 0) == ReviewCount(reviews, t, n)
  {
    if n > 0 {
      CountAfterRemove(reviews, t, n - 1, d);
    }
  }

  /** Deleting review d takes its score from the total of its title and leaves every other total alone. */
  lemma {:induction false} TotalAfterRemove(reviews: map<nat, Review>, t: nat, n: nat, d: nat)
    ensures ScoreTotal(reviews - {d}, t, n) + (if CountedIn(reviews, t, n, d) then reviews[d].score else 0)
         == ScoreTotal(reviews, t, n)
  {
    if n > 0 {
      TotalAfterRemove(reviews, t, n - 1, d);
    }
  }

  /** The count is the length of the listing of the title's reviews. */
  lemma {:induction false} CountIsListed(reviews: map<nat, Review>, t: nat, n: nat)
    ensures ReviewCount(reviews, t, n) == |ReviewIdsBelow(reviews, t, n)|
  {
    if n > 0 {
      CountIsListed(reviews, t, n - 1);
    }
  }

  // ----------------------------------------------------------------- queries

  /**
   * title.reviews.all() under Meta.ordering = ['-pub_date'], for a table
   * whose ids are below n and whose pub_dates grow with the id: exactly the
   * reviews of title t, newest first.
   */
  function ReviewsOf(reviews: map<nat, Review>, t: nat, n: nat): (rs: seq<Review>)
    requires forall k :: k in reviews ==> reviews[k].id == k && k < n
    requires forall a, b :: a in reviews && b in reviews && a < b ==> reviews[a].pubDate < reviews[b].pubDate
    ensures forall r :: r in rs ==> r.id in reviews && reviews[r.id] == r && r.title == t
    ensures forall k :: k in reviews && reviews[k].title == t ==> reviews[k] in rs
    ensures forall i, j :: 0 <= i < j < |rs| ==> rs[i].pubDate > rs[j].pubDate
  {
    var ks := ReviewIdsBelow(reviews, t, n);
    var rs := seq(|ks|, i requires 0 <= i < |ks| => reviews[ks[i]]);
    ReviewListing(reviews, t, n, ks, rs);
    rs
  }

  /** The rows behind a listing of ids are the rows asked for, each once, newest first. */
  lemma ReviewListing(reviews: map<nat, Review>, t: nat, n: nat, ks: seq<nat>, rs: seq<Review>)
    requires forall k :: k in reviews ==> reviews[k].id == k && k < n
    requires forall a, b :: a in reviews && b in reviews && a < b ==> reviews[a].pubDate < reviews[b].pubDate
    requires ks == ReviewIdsBelow(reviews, t, n)
    requires |rs| == |ks| && forall i :: 0 <= i < |ks| ==> rs[i] == reviews[ks[i]]
    ensures forall x :: x in rs ==> x.id in reviews && reviews[x.id] == x && x.title == t
    ensures forall k :: k in reviews && reviews[k].title == t ==> reviews[k] in rs
    ensures forall i, j :: 0 <= i < j < |rs| ==> rs[i].pubDate > rs[j].pubDate
  {
    forall k | k in reviews && reviews[k].title == t ensures reviews[k] in rs {
      assert k in ks;
      var i :| 0 <= i < |ks| && ks[i] == k;
      assert rs[i] == reviews[k];
    }
  }

  /**
   * review.comments.all() under Meta.ordering = ['-pub_date'], for a table
   * whose ids are below n and whose pub_dates grow with the id: exactly the
   * comments on review r, newest first.
   */
  function CommentsOf(comments: map<nat, Comment>, r: nat, n: nat): (cs: seq<Comment>)
    requires forall k :: k in comments ==> comments[k].id == k && k < n
    requires forall a, b :: a in comments && b in comments && a < b ==> comments[a].pubDate < comments[b].pubDate
    ensures forall c :: c in cs ==> c.id in comments && comments[c.id] == c && c.review == r
    ensures forall k :: k in comments && comments[k].review == r ==> comments[k] in cs
    ensures forall i, j :: 0 <= i < j < |cs| ==> cs[i].pubDate > cs[j].pubDate
  {
    var ks := CommentIdsBelow(comments, r, n);
    var cs := seq(|ks|, i requires 0 <= i < |ks| => comments[ks[i]]);
    CommentListing(comments, r, n, ks, cs);
    cs
  }

  /** The rows behind a listing of ids are the rows asked for, each once, newest first. */
  lemma CommentListing(comments: map<nat, Comment>, r: nat, n: nat, ks: seq<nat>, cs: seq<Comment>)
    requires forall k :: k in comments ==> comments[k].id == k && k < n
    requires forall a, b :: a in comments && b in comments && a < b ==> comments[a].pubDate < comments[b].pubDate
    requires ks == CommentIdsBelow(comments, r, n)
    requires |cs| == |ks| && forall i :: 0 <= i < |ks| ==> cs[i] == comments[ks[i]]
    ensures forall x :: x in cs ==> x.id in comments && comments[x.id] == x && x.review == r
    ensures forall k :: k in comments && comments[k].review == r ==> comments[k] in cs
    ensures forall i, j :: 0 <= i < j < |cs| ==> cs[i].pubDate > cs[j].pubDate
  {
    forall k | k in comments && comments[k].review == r ensures comments[k] in cs {
      assert k in ks;
      var i :| 0 <= i < |ks| && ks[i] == k;
      assert cs[i] == comments[k];
    }
  }

  /** The id of the account with this username; in a table of unique usernames there is at most one. */
  function UserNamed(users: map<nat, User>, name: string): (r: Option<nat>)
    requires UsersOk(users)
    ensures r.Some? ==> r.value in users && users[r.value].username == name
    ensures r.None? <==> forall k :: k in users ==> users[k].username != name
  {
    if exists k :: k in users && users[k].username == name then
      var k :| k in users && users[k].username == name; Some(k)
    else None
  }

  // ---------------------------------------------------------------- cascades

  /** The comments that are not on review r. */
  function CommentsNotOn(comments: map<nat, Comment>, r: nat): (kept: map<nat, Comment>)
    ensures forall k :: k in kept <==> k in comments && comments[k].review != r
    ensures forall k :: k in kept ==> kept[k] == comments[k]
  {
    map k | k in comments && comments[k].review != r :: comments[k]
  }

  /** The comments not written by account u. */
  function CommentsNotBy(comments: map<nat, Comment>, u: nat): (kept: map<nat, Comment>)
    ensures forall k :: k in kept <==> k in comments && comments[k].author != u
    ensures forall k :: k in kept ==> kept[k] == comments[k]
  {
    map k | k in comments && comments[k].author != u :: comments[k]
  }

  /** The comments whose review is still among reviews. */
  function CommentsUnder(comments: map<nat, Comment>, reviews: map<nat, Review>): (kept: map<nat, Comment>)
    ensures forall k :: k in kept <==> k in comments && comments[k].review in reviews
    ensures forall k :: k in kept ==> kept[k] == comments[k]
  {
    map k | k in comments && comments[k].review in reviews :: comments[k]
  }

  /** The reviews that are not of title t. */
  function ReviewsNotOn(reviews: map<nat, Review>, t: nat): (kept: map<nat, Review>)
    ensures forall k :: k in kept <==> k in reviews && reviews[k].title != t
    ensures forall k :: k in kept ==> kept[k] == reviews[k]
  {
    map k | k in reviews && reviews[k].title != t :: reviews[k]
  }

  /** The reviews not written by account u. */
  function ReviewsNotBy(reviews: map<nat, Review>, u: nat): (kept: map<nat, Review>)
    ensures forall k :: k in kept <==> k in reviews && reviews[k].author != u
    ensures forall k :: k in kept ==> kept[k] == reviews[k]
  {
    map k | k in reviews && reviews[k].author != u :: reviews[k]
  }

  /** SET_NULL on Title.category: the titles of category c keep everything but their category. */
  function WithoutCategory(titles: map<nat, Title>, c: nat): (nulled: map<nat, Title>)
    ensures nulled.Keys == titles.Keys
    ensures forall k :: k in nulled ==>
      nulled[k] == (if titles[k].category == Some(c) then titles[k].(category := None) else titles[k])
  {
    map k | k in titles :: if titles[k].category == Some(c) then titles[k].(category := None) else titles[k]
  }

  /** The rows of the Title.genre relation that name genre g go; every title stays. */
  function WithoutGenre(titles: map<nat, Title>, g: nat): (detached: map<nat, Title>)
    ensures detached.Keys == titles.Keys
    ensures forall k :: k in detached ==> detached[k] == titles[k].(genres := titles[k].genres - {g})
  {
    map k | k in titles :: titles[k].(genres := titles[k].genres - {g})
  }

  // -------------------------------------------------------------- invariants

  /** Every key of m is below n: the counter that hands out ids is ahead of all of them. */
  ghost predicate IdsBelow<V>(m: map<nat, V>, n: nat)
  {
    forall k :: k in m ==> k < n
  }

  /** Every row of a is a row of b. */
  ghost predicate SubMap<V>(a: map<nat, V>, b: map<nat, V>)
  {
    forall k :: k in a ==> k in b && a[k] == b[k]
  }

  /** Accounts: ids match keys; username and email are unique (AbstractUser, email unique=True). */
  ghost predicate UsersOk(users: map<nat, User>)
  {
    && (forall k :: k in users ==> users[k].id == k)
    && (forall a, b :: a in users && b in users && a != b ==>
          users[a].username != users[b].username && users[a].email != users[b].email)
  }

  /** Categories: ids match keys; slugs are unique. */
  ghost predicate CategoriesOk(categories: map<nat, Category>)
  {
    && (forall k :: k in categories ==> categories[k].id == k)
    && (forall a, b :: a in categories && b in categories && a != b ==> categories[a].slug != categories[b].slug)
  }

  /** Genres: ids match keys; slugs are unique. */
  ghost predicate GenresOk(genres: map<nat, Genre>)
  {
    && (forall k :: k in genres ==> genres[k].id == k)
    && (forall a, b :: a in genres && b in genres && a != b ==> genres[a].slug != genres[b].slug)
  }

  /** Titles: no year after currentYear; category and genres refer to stored rows. */
  ghost predicate TitlesOk(titles: map<nat, Title>, categories: map<nat, Category>, genres: map<nat, Genre>, currentYear: nat)
  {
    forall k :: k in titles ==>
      && titles[k].id == k
      && ValidYear(titles[k].year, currentYear)
      && (titles[k].category.Some? ==> titles[k].category.value in categories)
      && (forall g :: g in titles[k].genres ==> g in genres)
  }

  /**
   * Reviews: title and author stored, score in 1..10, at most one review per
   * (title, author) (the UniqueConstraint just_one_review_per_author), and a
   * higher id means a later pub_date.
   */
  ghost predicate ReviewsOk(reviews: map<nat, Review>, titles: map<nat, Title>, users: map<nat, User>)
  {
    && (forall k :: k in reviews ==>
          && reviews[k].id == k
          && reviews[k].title in titles && reviews[k].author in users
          && ValidScore(reviews[k].score))
    && (forall a, b :: a in reviews && b in reviews && a != b ==>
          reviews[a].title != reviews[b].title || reviews[a].author != reviews[b].author)
    && (forall a, b :: a in reviews && b in reviews && a < b ==> reviews[a].pubDate < reviews[b].pubDate)
  }

  /** Comments: review and author stored, and a higher id means a later pub_date. */
  ghost predicate CommentsOk(comments: map<nat, Comment>, reviews: map<nat, Review>, users: map<nat, User>)
  {
    && (forall k :: k in comments ==>
          comments[k].id == k && comments[k].review in reviews && comments[k].author in users)
    && (forall a, b :: a in comments && b in comments && a < b ==> comments[a].pubDate < comments[b].pubDate)
  }

  ghost predicate ReviewDatesBelow(reviews: map<nat, Review>, clock: nat)
  {
    forall k :: k in reviews ==> reviews[k].pubDate < clock
  }

  ghost predicate CommentDatesBelow(comments: map<nat, Comment>, clock: nat)
  {
    forall k :: k in comments ==> comments[k].pubDate < clock
  }

  // ------------------------------------------- how each write keeps them

  lemma UsersOkInsert(users: map<nat, User>, u: User)
    requires UsersOk(users) && u.id !in users
    requires forall k :: k in users ==> users[k].username != u.username && users[k].email != u.email
    ensures UsersOk(users[u.id := u])
  {
  }

  /** Replacing an account by one with the same id and a username and email no one else holds. */
  lemma UsersOkReplace(users: map<nat, User>, u: User)
    requires UsersOk(users) && u.id in users
    requires forall k :: k in users && k != u.id ==> users[k].username != u.username && users[k].email != u.email
    ensures UsersOk(users[u.id := u])
  {
  }

  lemma UsersOkSub(users: map<nat, User>, sub: map<nat, User>)
    requires UsersOk(users) && SubMap(sub, users)
    ensures UsersOk(sub)
  {
  }

  lemma CategoriesOkInsert(categories: map<nat, Category>, c: Category)
    requires CategoriesOk(categories) && c.id !in categories
    requires forall k :: k in categories ==> categories[k].slug != c.slug
    ensures CategoriesOk(categories[c.id := c])
  {
  }

  lemma GenresOkInsert(genres: map<nat, Genre>, g: Genre)
    requires GenresOk(genres) && g.id !in genres
    requires forall k :: k in genres ==> genres[k].slug != g.slug
    ensures GenresOk(genres[g.id := g])
  {
  }

  lemma TitlesOkInsert(titles: map<nat, Title>, t: Title, categories: map<nat, Category>, genres: map<nat, Genre>, currentYear: nat)
    requires TitlesOk(titles, categories, genres, currentYear)
    requires ValidYear(t.year, currentYear) && (t.category.Some? ==> t.category.value in categories)
    requires forall g :: g in t.genres ==> g in genres
    ensures TitlesOk(titles[t.id := t], categories, genres, currentYear)
  {
  }

  /** Titles stay consistent when more categories or genres exist. */
  lemma TitlesOkGrow(titles: map<nat, Title>, categories: map<nat, Category>, genres: map<nat, Genre>,
                     categories': map<nat, Category>, genres': map<nat, Genre>, currentYear: nat)
    requires TitlesOk(titles, categories, genres, currentYear)
    requires forall k :: k in categories ==> k in categories'
    requires forall k :: k in genres ==> k in genres'
    ensures TitlesOk(titles, categories', genres', currentYear)
  {
  }

  /** SET_NULL: the titles of a deleted category keep every property but the category. */
  lemma TitlesOkWithoutCategory(titles: map<nat, Title>, categories: map<nat, Category>, genres: map<nat, Genre>,
                                currentYear: nat, id: nat)
    requires TitlesOk(titles, categories, genres, currentYear)
    ensures TitlesOk(WithoutCategory(titles, id), categories - {id}, genres, currentYear)
  {
  }

  lemma TitlesOkWithoutGenre(titles: map<nat, Title>, categories: map<nat, Category>, genres: map<nat, Genre>,
                             currentYear: nat, id: nat)
    requires TitlesOk(titles, categories, genres, currentYear)
    ensures TitlesOk(WithoutGenre(titles, id), categories, genres - {id}, currentYear)
  {
  }

  lemma TitlesOkSub(titles: map<nat, Title>, sub: map<nat, Title>, categories: map<nat, Category>, genres: map<nat, Genre>,
                    currentYear: nat)
    requires TitlesOk(titles, categories, genres, currentYear) && SubMap(sub, titles)
    ensures TitlesOk(sub, categories, genres, currentYear)
  {
  }

  /** A review under a fresh, highest id with the latest pub_date and no earlier review by its author on its title. */
  lemma ReviewsOkInsert(reviews: map<nat, Review>, r: Review, titles: map<nat, Title>, users: map<nat, User>)
    requires ReviewsOk(reviews, titles, users)
    requires forall k :: k in reviews ==> k < r.id && reviews[k].pubDate < r.pubDate
    requires r.title in titles && r.author in users && ValidScore(r.score)
    requires forall k :: k in reviews ==> reviews[k].title != r.title || reviews[k].author != r.author
    ensures ReviewsOk(reviews[r.id := r], titles, users)
  {
  }

  lemma ReviewsOkEdit(reviews: map<nat, Review>, id: nat, text: string, score: int, titles: map<nat, Title>, users: map<nat, User>)
    requires ReviewsOk(reviews, titles, users) && id in reviews && ValidScore(score)
    ensures ReviewsOk(reviews[id := reviews[id].(text := text, score := score)], titles, users)
  {
  }

  /** Any part of a consistent review table is consistent, against parents that still hold its references. */
  lemma ReviewsOkSub(reviews: map<nat, Review>, sub: map<nat, Review>, titles: map<nat, Title>, users: map<nat, User>,
                     titles': map<nat, Title>, users': map<nat, User>)
    requires ReviewsOk(reviews, titles, users) && SubMap(sub, reviews)
    requires forall k :: k in sub ==> sub[k].title in titles' && sub[k].author in users'
    ensures ReviewsOk(sub, titles', users')
  {
  }

  lemma CommentsOkInsert(comments: map<nat, Comment>, c: Comment, reviews: map<nat, Review>, users: map<nat, User>)
    requires CommentsOk(comments, reviews, users)
    requires forall k :: k in comments ==> k < c.id && comments[k].pubDate < c.pubDate
    requires c.review in reviews && c.author in users
    ensures CommentsOk(comments[c.id := c], reviews, users)
  {
  }

  lemma CommentsOkEdit(comments: map<nat, Comment>, id: nat, text: string, reviews: map<nat, Review>, users: map<nat, User>)
    requires CommentsOk(comments, reviews, users) && id in comments
    ensures CommentsOk(comments[id := comments[id].(text := text)], reviews, users)
  {
  }

  lemma CommentsOkSub(comments: map<nat, Comment>, sub: map<nat, Comment>, reviews: map<nat, Review>, users: map<nat, User>,
                      reviews': map<nat, Review>, users': map<nat, User>)
    requires CommentsOk(comments, reviews, users) && SubMap(sub, comments)
    requires forall k :: k in sub ==> sub[k].review in reviews' && sub[k].author in users'
    ensures CommentsOk(sub, reviews', users')
  {
  }

  /** All the constraints at once, over the six tables, the counter and the clock. */
  ghost predicate StoreOk(users: map<nat, User>, categories: map<nat, Category>, genres: map<nat, Genre>,
                          titles: map<nat, Title>, reviews: map<nat, Review>, comments: map<nat, Comment>,
                          currentYear: nat, nextId: nat, clock: nat)
  {
    && TablesOk(users, categories, genres, titles, reviews, comments, currentYear)
    && CountersAhead(users, categories, genres, titles, reviews, comments, nextId, clock)
  }

  /** The constraints of every table. */
  ghost predicate TablesOk(users: map<nat, User>, categories: map<nat, Category>, genres: map<nat, Genre>,
                           titles: map<nat, Title>, reviews: map<nat, Review>, comments: map<nat, Comment>,
                           currentYear: nat)
  {
    && UsersOk(users) && CategoriesOk(categories) && GenresOk(genres)
    && TitlesOk(titles, categories, genres, currentYear)
    && ReviewsOk(reviews, titles, users)
    && CommentsOk(comments, reviews, users)
  }

  /** The id counter is above every id in use and the clock above every pub_date. */
  ghost predicate CountersAhead(users: map<nat, User>, categories: map<nat, Category>, genres: map<nat, Genre>,
                                titles: map<nat, Title>, reviews: map<nat, Review>, comments: map<nat, Comment>,
                                nextId: nat, clock: nat)
  {
    && IdsBelow(users, nextId) && IdsBelow(categories, nextId) && IdsBelow(genres, nextId)
    && IdsBelow(titles, nextId) && IdsBelow(reviews, nextId) && IdsBelow(comments, nextId)
    && ReviewDatesBelow(reviews, clock) && CommentDatesBelow(comments, clock)
  }

  /** A new account under the next id, with a username and an email no one holds, keeps every constraint. */
  lemma InsertUserKeeps(users: map<nat, User>, categories: map<nat, Category>, genres: map<nat, Genre>,
      titles: map<nat, Title>, reviews: map<nat, Review>, comments: map<nat, Comment>,
      currentYear: nat, nextId: nat, clock: nat, u: User)
    requires StoreOk(users, categories, genres, titles, reviews, comments, currentYear, nextId, clock)
    requires u.id == nextId
    requires forall k :: k in users ==> users[k].username != u.username && users[k].email != u.email
    ensures StoreOk(users[u.id := u], categories, genres, titles, reviews, comments, currentYear, nextId + 1, clock)
  {
    UsersOkInsert(users, u);
    ReviewsOkSub(reviews, reviews, titles, users, titles, users[u.id := u]);
    CommentsOkSub(comments, comments, reviews, users, reviews, users[u.id := u]);
  }

  /** An edited account that keeps its id, and a username and an email no other account holds, keeps every constraint. */
  lemma UpdateUserKeeps(users: map<nat, User>, categories: map<nat, Category>, genres: map<nat, Genre>,
      titles: map<nat, Title>, reviews: map<nat, Review>, comments: map<nat, Comment>,
      currentYear: nat, nextId: nat, clock: nat, u: User)
    requires StoreOk(users, categories, genres, titles, reviews, comments, currentYear, nextId, clock)
    requires u.id in users
    requires forall k :: k in users && k != u.id ==> users[k].username != u.username && users[k].email != u.email
    ensures StoreOk(users[u.id := u], categories, genres, titles, reviews, comments, currentYear, nextId, clock)
  {
    UsersOkReplace(users, u);
    ReviewsOkSub(reviews, reviews, titles, users, titles, users[u.id := u]);
    CommentsOkSub(comments, comments, reviews, users, reviews, users[u.id := u]);
  }

  lemma InsertCategoryKeeps(users: map<nat, User>, categories: map<nat, Category>, genres: map<nat, Genre>,
      titles: map<nat, Title>, reviews: map<nat, Review>, comments: map<nat, Comment>,
      currentYear: nat, nextId: nat, clock: nat, c: Category)
    requires StoreOk(users, categories, genres, titles, reviews, comments, currentYear, nextId, clock)
    requires c.id == nextId
    requires forall k :: k in categories ==> categories[k].slug != c.slug
    ensures StoreOk(users, categories[c.id := c], genres, titles, reviews, comments, currentYear, nextId + 1, clock)
  {
    CategoriesOkInsert(categories, c);
    TitlesOkGrow(titles, categories, genres, categories[c.id := c], genres, currentYear);
  }

  lemma InsertGenreKeeps(users: map<nat, User>, categories: map<nat, Category>, genres: map<nat, Genre>,
      titles: map<nat, Title>, reviews: map<nat, Review>, comments: map<nat, Comment>,
      currentYear: nat, nextId: nat, clock: nat, g: Genre)
    requires StoreOk(users, categories, genres, titles, reviews, comments, currentYear, nextId, clock)
    requires g.id == nextId
    requires forall k :: k in genres ==> genres[k].slug != g.slug
    ensures StoreOk(users, categories, genres[g.id := g], titles, reviews, comments, currentYear, nextId + 1, clock)
  {
    GenresOkInsert(genres, g);
    TitlesOkGrow(titles, categories, genres, categories, genres[g.id := g], currentYear);
  }

  lemma InsertTitleKeeps(users: map<nat, User>, categories: map<nat, Category>, genres: map<nat, Genre>,
      titles: map<nat, Title>, reviews: map<nat, Review>, comments: map<nat, Comment>,
      currentYear: nat, nextId: nat, clock: nat, t: Title)
    requires StoreOk(users, categories, genres, titles, reviews, comments, currentYear, nextId, clock)
    requires t.id == nextId && ValidYear(t.year, currentYear)
    requires t.category.Some? ==> t.category.value in categories
    requires forall g :: g in t.genres ==> g in genres
    ensures StoreOk(users, categories, genres, titles[t.id := t], reviews, comments, currentYear, nextId + 1, clock)
  {
    TitlesOkInsert(titles, t, categories, genres, currentYear);
    ReviewsOkSub(reviews, reviews, titles, users, titles[t.id := t], users);
  }

  /** A title edited in place, keeping its id, with a valid year and references that resolve, keeps every constraint. */
  lemma UpdateTitleKeeps(users: map<nat, User>, categories: map<nat, Category>, genres: map<nat, Genre>,
      titles: map<nat, Title>, reviews: map<nat, Review>, comments: map<nat, Comment>,
      currentYear: nat, nextId: nat, clock: nat, t: Title)
    requires StoreOk(users, categories, genres, titles, reviews, comments, currentYear, nextId, clock)
    requires t.id in titles && ValidYear(t.year, currentYear)
    requires t.category.Some? ==> t.category.value in categories
    requires forall g :: g in t.genres ==> g in genres
    ensures StoreOk(users, categories, genres, titles[t.id := t], reviews, comments, currentYear, nextId, clock)
  {
    TitlesOkInsert(titles, t, categories, genres, currentYear);
    ReviewsOkSub(reviews, reviews, titles, users, titles[t.id := t], users);
  }

  /** A first review by its author on its title, under the next id and the current pub_date, keeps every constraint. */
  lemma InsertReviewKeeps(users: map<nat, User>, categories: map<nat, Category>, genres: map<nat, Genre>,
      titles: map<nat, Title>, reviews: map<nat, Review>, comments: map<nat, Comment>,
      currentYear: nat, nextId: nat, clock: nat, r: Review)
    requires StoreOk(users, categories, genres, titles, reviews, comments, currentYear, nextId, clock)
    requires r.id == nextId && r.pubDate == clock
    requires r.title in titles && r.author in users && ValidScore(r.score)
    requires forall k :: k in reviews ==> reviews[k].title != r.title || reviews[k].author != r.author
    ensures StoreOk(users, categories, genres, titles, reviews[r.id := r], comments, currentYear, nextId + 1, clock + 1)
  {
    ReviewsOkInsert(reviews, r, titles, users);
    CommentsOkSub(comments, comments, reviews, users, reviews[r.id := r], users);
  }

  lemma UpdateReviewKeeps(users: map<nat, User>, categories: map<nat, Category>, genres: map<nat, Genre>,
      titles: map<nat, Title>, reviews: map<nat, Review>, comments: map<nat, Comment>,
      currentYear: nat, nextId: nat, clock: nat, id: nat, text: string, score: int)
    requires StoreOk(users, categories, genres, titles, reviews, comments, currentYear, nextId, clock)
    requires id in reviews && ValidScore(score)
    ensures StoreOk(users, categories, genres, titles, reviews[id := reviews[id].(text := text, score := score)], comments,
                    currentYear, nextId, clock)
  {
    ReviewsOkEdit(reviews, id, text, score, titles, users);
    CommentsOkSub(comments, comments, reviews, users, reviews[id := reviews[id].(text := text, score := score)], users);
  }

  lemma InsertCommentKeeps(users: map<nat, User>, categories: map<nat, Category>, genres: map<nat, Genre>,
      titles: map<nat, Title>, reviews: map<nat, Review>, comments: map<nat, Comment>,
      currentYear: nat, nextId: nat, clock: nat, c: Comment)
    requires StoreOk(users, categories, genres, titles, reviews, comments, currentYear, nextId, clock)
    requires c.id == nextId && c.pubDate == clock
    requires c.review in reviews && c.author in users
    ensures StoreOk(users, categories, genres, titles, reviews, comments[c.id := c], currentYear, nextId + 1, clock + 1)
  {
    CommentsOkInsert(comments, c, reviews, users);
  }

  lemma UpdateCommentKeeps(users: map<nat, User>, categories: map<nat, Category>, genres: map<nat, Genre>,
      titles: map<nat, Title>, reviews: map<nat, Review>, comments: map<nat, Comment>,
      currentYear: nat, nextId: nat, clock: nat, id: nat, text: string)
    requires StoreOk(users, categories, genres, titles, reviews, comments, currentYear, nextId, clock)
    requires id in comments
    ensures StoreOk(users, categories, genres, titles, reviews, comments[id := comments[id].(text := text)],
                    currentYear, nextId, clock)
  {
    CommentsOkEdit(comments, id, text, reviews, users);
  }

  /** Deleting a comment keeps every constraint. */
  lemma DeleteCommentKeeps(users: map<nat, User>, categories: map<nat, Category>, genres: map<nat, Genre>,
      titles: map<nat, Title>, reviews: map<nat, Review>, comments: map<nat, Comment>,
      currentYear: nat, nextId: nat, clock: nat, id: nat)
    requires StoreOk(users, categories, genres, titles, reviews, comments, currentYear, nextId, clock)
    ensures StoreOk(users, categories, genres, titles, reviews, comments - {id}, currentYear, nextId, clock)
  {
    CommentsOkSub(comments, comments - {id}, reviews, users, reviews, users);
  }

  /** Deleting a review together with its comments keeps every constraint. */
  lemma DeleteReviewKeeps(users: map<nat, User>, categories: map<nat, Category>, genres: map<nat, Genre>,
      titles: map<nat, Title>, reviews: map<nat, Review>, comments: map<nat, Comment>,
      currentYear: nat, nextId: nat, clock: nat, id: nat)
    requires StoreOk(users, categories, genres, titles, reviews, comments, currentYear, nextId, clock)
    ensures StoreOk(users, categories, genres, titles, reviews - {id}, CommentsNotOn(comments, id),
                    currentYear, nextId, clock)
  {
    ReviewsOkSub(reviews, reviews - {id}, titles, users, titles, users);
    CommentsOkSub(comments, CommentsNotOn(comments, id), reviews, users, reviews - {id}, users);
  }

  /** Deleting a title together with its reviews and their comments keeps every constraint. */
  lemma DeleteTitleKeeps(users: map<nat, User>, categories: map<nat, Category>, genres: map<nat, Genre>,
      titles: map<nat, Title>, reviews: map<nat, Review>, comments: map<nat, Comment>,
      currentYear: nat, nextId: nat, clock: nat, id: nat)
    requires StoreOk(users, categories, genres, titles, reviews, comments, currentYear, nextId, clock)
    ensures var kept := ReviewsNotOn(reviews, id);
            StoreOk(users, categories, genres, titles - {id}, kept, CommentsUnder(comments, kept),
                    currentYear, nextId, clock)
  {
    var kept := ReviewsNotOn(reviews, id);
    TitlesOkSub(titles, titles - {id}, categories, genres, currentYear);
    ReviewsOkSub(reviews, kept, titles, users, titles - {id}, users);
    CommentsOkSub(comments, CommentsUnder(comments, kept), reviews, users, kept, users);
  }

  /** Deleting a category and detaching its titles keeps every constraint. */
  lemma DeleteCategoryKeeps(users: map<nat, User>, categories: map<nat, Category>, genres: map<nat, Genre>,
      titles: map<nat, Title>, reviews: map<nat, Review>, comments: map<nat, Comment>,
      currentYear: nat, nextId: nat, clock: nat, id: nat)
    requires StoreOk(users, categories, genres, titles, reviews, comments, currentYear, nextId, clock)
    ensures StoreOk(users, categories - {id}, genres, WithoutCategory(titles, id), reviews, comments,
                    currentYear, nextId, clock)
  {
    TitlesOkWithoutCategory(titles, categories, genres, currentYear, id);
    ReviewsOkSub(reviews, reviews, titles, users, WithoutCategory(titles, id), users);
  }

  /** Deleting a genre and its rows in the title relation keeps every constraint. */
  lemma DeleteGenreKeeps(users: map<nat, User>, categories: map<nat, Category>, genres: map<nat, Genre>,
      titles: map<nat, Title>, reviews: map<nat, Review>, comments: map<nat, Comment>,
      currentYear: nat, nextId: nat, clock: nat, id: nat)
    requires StoreOk(users, categories, genres, titles, reviews, comments, currentYear, nextId, clock)
    ensures StoreOk(users, categories, genres - {id}, WithoutGenre(titles, id), reviews, comments,
                    currentYear, nextId, clock)
  {
    TitlesOkWithoutGenre(titles, categories, genres, currentYear, id);
    ReviewsOkSub(reviews, reviews, titles, users, WithoutGenre(titles, id), users);
  }

  /** Deleting an account together with its reviews and comments, and the comments on those reviews, keeps every constraint. */
  lemma DeleteUserKeeps(users: map<nat, User>, categories: map<nat, Category>, genres: map<nat, Genre>,
      titles: map<nat, Title>, reviews: map<nat, Review>, comments: map<nat, Comment>,
      currentYear: nat, nextId: nat, clock: nat, id: nat)
    requires StoreOk(users, categories, genres, titles, reviews, comments, currentYear, nextId, clock)
    ensures var kept := ReviewsNotBy(reviews, id);
            StoreOk(users - {id}, categories, genres, titles, kept, CommentsUnder(CommentsNotBy(comments, id), kept),
                    currentYear, nextId, clock)
  {
    var kept := ReviewsNotBy(reviews, id);
    var keptComments := CommentsUnder(CommentsNotBy(comments, id), kept);
    DeleteUserTables(users, categories, genres, titles, reviews, comments, currentYear, id);
    CountersShrink(users, categories, genres, titles, reviews, comments,
                   users - {id}, categories, genres, titles, kept, keptComments, nextId, clock);
  }

  lemma DeleteUserTables(users: map<nat, User>, categories: map<nat, Category>, genres: map<nat, Genre>,
      titles: map<nat, Title>, reviews: map<nat, Review>, comments: map<nat, Comment>, currentYear: nat, id: nat)
    requires TablesOk(users, categories, genres, titles, reviews, comments, currentYear)
    ensures var kept := ReviewsNotBy(reviews, id);
            TablesOk(users - {id}, categories, genres, titles, kept, CommentsUnder(CommentsNotBy(comments, id), kept),
                     currentYear)
  {
    UsersOkSub(users, users - {id});
    ReviewsOkSub(reviews, ReviewsNotBy(reviews, id), titles, users, titles, users - {id});
    CommentsOkAfterUser(comments, reviews, users, id);
  }

  /** The comments left once account u and its reviews are gone refer only to what is left. */
  lemma CommentsOkAfterUser(comments: map<nat, Comment>, reviews: map<nat, Review>, users: map<nat, User>, u: nat)
    requires CommentsOk(comments, reviews, users)
    ensures CommentsOk(CommentsUnder(CommentsNotBy(comments, u), ReviewsNotBy(reviews, u)), ReviewsNotBy(reviews, u), users - {u})
  {
    var kept := ReviewsNotBy(reviews, u);
    var notBy := CommentsNotBy(comments, u);
    var keptComments := CommentsUnder(notBy, kept);
    forall k | k in keptComments ensures keptComments[k].review in kept && keptComments[k].author in users - {u} {
      assert k in notBy;
      assert keptComments[k] == comments[k] && comments[k].author != u && comments[k].author in users;
    }
    CommentsOkSub(comments, keptComments, reviews, users, kept, users - {u});
  }

  /** Taking rows away never puts an id or a pub_date above the counters. */
  lemma CountersShrink(users: map<nat, User>, categories: map<nat, Category>, genres: map<nat, Genre>,
                       titles: map<nat, Title>, reviews: map<nat, Review>, comments: map<nat, Comment>,
                       users': map<nat, User>, categories': map<nat, Category>, genres': map<nat, Genre>,
                       titles': map<nat, Title>, reviews': map<nat, Review>, comments': map<nat, Comment>,
                       nextId: nat, clock: nat)
    requires CountersAhead(users, categories, genres, titles, reviews, comments, nextId, clock)
    requires SubMap(users', users) && SubMap(categories', categories) && SubMap(genres', genres)
    requires SubMap(titles', titles) && SubMap(reviews', reviews) && SubMap(comments', comments)
    ensures CountersAhead(users', categories', genres', titles', reviews', comments', nextId, clock)
  {
  }

  // ------------------------------------------------------------------- store

  class Store {
    /** The year MaxValueValidator(dt.datetime.today().year) captured when the models were loaded. */
    const currentYear: nat

    var users: map<nat, User>
    var categories: map<nat, Category>
    var genres: map<nat, Genre>
    var titles: map<nat, Title>
    var reviews: map<nat, Review>
    var comments: map<nat, Comment>

    /** The next id to hand out; every id in use is below it. */
    var nextId: nat
    /** The next pub_date; every stored pub_date is below it. */
    var clock: nat
    /** The confirmation codes delivered so far, in order. */
    var outbox: seq<Mail>

    ghost predicate Valid()
      reads this`users, this`categories, this`genres, this`titles, this`reviews, this`comments
      reads this`nextId, this`clock
    {
      StoreOk(users, categories, genres, titles, reviews, comments, currentYear, nextId, clock)
    }

    /**
     * A store holding only accounts made outside the API (createsuperuser,
     * the admin site), with ids below firstFreeId.
     */
    constructor (currentYear: nat, accounts: map<nat, User>, firstFreeId: nat)
      requires UsersOk(accounts) && IdsBelow(accounts, firstFreeId)
      ensures Valid()
      ensures this.currentYear == currentYear && users == accounts && nextId == firstFreeId
      ensures categories == map[] && genres == map[] && titles == map[] && reviews == map[] && comments == map[]
      ensures outbox == []
    {
      this.currentYear := currentYear;
      users := accounts;
      categories, genres, titles, reviews, comments := map[], map[], map[], map[], map[];
      nextId, clock := firstFreeId, 0;
      outbox := [];
    }

    // ----------------------------------------------------------------- writes

    /** objects.create for an account; the uniqueness of username and email is the caller's to check. */
    method InsertUser(u: User)
      requires Valid() && u.id == nextId
      requires forall k :: k in users ==> users[k].username != u.username && users[k].email != u.email
      modifies this`users, this`nextId
      ensures Valid()
      ensures users == old(users)[u.id := u] && nextId == old(nextId) + 1
    {
      InsertUserKeeps(users, categories, genres, titles, reviews, comments, currentYear, nextId, clock, u);
      users := users[u.id := u];
      nextId := nextId + 1;
    }

    /** save() of an edited account, which keeps its id. */
    method UpdateUser(u: User)
      requires Valid() && u.id in users
      requires forall k :: k in users && k != u.id ==> users[k].username != u.username && users[k].email != u.email
      modifies this`users
      ensures Valid()
      ensures users == old(users)[u.id := u]
    {
      UpdateUserKeeps(users, categories, genres, titles, reviews, comments, currentYear, nextId, clock, u);
      users := users[u.id := u];
    }

    method InsertCategory(c: Category)
      requires Valid() && c.id == nextId
      requires forall k :: k in categories ==> categories[k].slug != c.slug
      modifies this`categories, this`nextId
      ensures Valid()
      ensures categories == old(categories)[c.id := c] && nextId == old(nextId) + 1
    {
      InsertCategoryKeeps(users, categories, genres, titles, reviews, comments, currentYear, nextId, clock, c);
      categories := categories[c.id := c];
      nextId := nextId + 1;
    }

    method InsertGenre(g: Genre)
      requires Valid() && g.id == nextId
      requires forall k :: k in genres ==> genres[k].slug != g.slug
      modifies this`genres, this`nextId
      ensures Valid()
      ensures genres == old(genres)[g.id := g] && nextId == old(nextId) + 1
    {
      InsertGenreKeeps(users, categories, genres, titles, reviews, comments, currentYear, nextId, clock, g);
      genres := genres[g.id := g];
      nextId := nextId + 1;
    }

    method InsertTitle(t: Title)
      requires Valid() && t.id == nextId && ValidYear(t.year, currentYear)
      requires t.category.Some? ==> t.category.value in categories
      requires forall g :: g in t.genres ==> g in genres
      modifies this`titles, this`nextId
      ensures Valid()
      ensures titles == old(titles)[t.id := t] && nextId == old(nextId) + 1
    {
      InsertTitleKeeps(users, categories, genres, titles, reviews, comments, currentYear, nextId, clock, t);
      titles := titles[t.id := t];
      nextId := nextId + 1;
    }

    /** save() of an edited title, which keeps its id and its reviews. */
    method UpdateTitle(t: Title)
      requires Valid() && t.id in titles && ValidYear(t.year, currentYear)
      requires t.category.Some? ==> t.category.value in categories
      requires forall g :: g in t.genres ==> g in genres
      modifies this`titles
      ensures Valid()
      ensures titles == old(titles)[t.id := t]
    {
      UpdateTitleKeeps(users, categories, genres, titles, reviews, comments, currentYear, nextId, clock, t);
      titles := titles[t.id := t];
    }

    /** objects.create for a review, stamped with the clock (auto_now_add). */
    method InsertReview(r: Review)
      requires Valid() && r.id == nextId && r.pubDate == clock
      requires r.title in titles && r.author in users && ValidScore(r.score)
      requires forall k :: k in reviews ==> reviews[k].title != r.title || reviews[k].author != r.author
      modifies this`reviews, this`nextId, this`clock
      ensures Valid()
      ensures reviews == old(reviews)[r.id := r] && nextId == old(nextId) + 1 && clock == old(clock) + 1
    {
      InsertReviewKeeps(users, categories, genres, titles, reviews, comments, currentYear, nextId, clock, r);
      reviews := reviews[r.id := r];
      nextId, clock := nextId + 1, clock + 1;
    }

    /** save() of an edited review: only its text and score change. */
    method UpdateReview(id: nat, text: string, score: int)
      requires Valid() && id in reviews && ValidScore(score)
      modifies this`reviews
      ensures Valid()
      ensures reviews == old(reviews)[id := old(reviews)[id].(text := text, score := score)]
    {
      UpdateReviewKeeps(users, categories, genres, titles, reviews, comments, currentYear, nextId, clock, id, text, score);
      reviews := reviews[id := reviews[id].(text := text, score := score)];
    }

    method InsertComment(c: Comment)
      requires Valid() && c.id == nextId && c.pubDate == clock
      requires c.review in reviews && c.author in users
      modifies this`comments, this`nextId, this`clock
      ensures Valid()
      ensures comments == old(comments)[c.id := c] && nextId == old(nextId) + 1 && clock == old(clock) + 1
    {
      InsertCommentKeeps(users, categories, genres, titles, reviews, comments, currentYear, nextId, clock, c);
      comments := comments[c.id := c];
      nextId, clock := nextId + 1, clock + 1;
    }

    method UpdateComment(id: nat, text: string)
      requires Valid() && id in comments
      modifies this`comments
      ensures Valid()
      ensures comments == old(comments)[id := old(comments)[id].(text := text)]
    {
      UpdateCommentKeeps(users, categories, genres, titles, reviews, comments, currentYear, nextId, clock, id, text);
      comments := comments[id := comments[id].(text := text)];
    }

    method DeleteComment(id: nat)
      requires Valid()
      modifies this`comments
      ensures Valid()
      ensures comments == old(comments) - {id}
    {
      DeleteCommentKeeps(users, categories, genres, titles, reviews, comments, currentYear, nextId, clock, id);
      comments := comments - {id};
    }

    /** delete() of a review: its comments go with it (CASCADE). */
    method DeleteReview(id: nat)
      requires Valid()
      modifies this`reviews, this`comments
      ensures Valid()
      ensures reviews == old(reviews) - {id}
      ensures comments == CommentsNotOn(old(comments), id)
    {
      DeleteReviewKeeps(users, categories, genres, titles, reviews, comments, currentYear, nextId, clock, id);
      reviews, comments := reviews - {id}, CommentsNotOn(comments, id);
    }

    /** delete() of a title: its reviews and their comments go with it (CASCADE). */
    method DeleteTitle(id: nat)
      requires Valid()
      modifies this`titles, this`reviews, this`comments
      ensures Valid()
      ensures titles == old(titles) - {id}
      ensures reviews == ReviewsNotOn(old(reviews), id)
      ensures comments == CommentsUnder(old(comments), reviews)
    {
      DeleteTitleKeeps(users, categories, genres, titles, reviews, comments, currentYear, nextId, clock, id);
      var kept := ReviewsNotOn(reviews, id);
      titles, reviews, comments := titles - {id}, kept, CommentsUnder(comments, kept);
    }

    /** delete() of a category: the titles in it stay, with no category (SET_NULL). */
    method DeleteCategory(id: nat)
      requires Valid()
      modifies this`categories, this`titles
      ensures Valid()
      ensures categories == old(categories) - {id}
      ensures titles == WithoutCategory(old(titles), id)
    {
      DeleteCategoryKeeps(users, categories, genres, titles, reviews, comments, currentYear, nextId, clock, id);
      categories, titles := categories - {id}, WithoutCategory(titles, id);
    }

    /** delete() of a genre: the titles stay and lose that genre (the many-to-many rows go). */
    method DeleteGenre(id: nat)
      requires Valid()
      modifies this`genres, this`titles
      ensures Valid()
      ensures genres == old(genres) - {id}
      ensures titles == WithoutGenre(old(titles), id)
    {
      DeleteGenreKeeps(users, categories, genres, titles, reviews, comments, currentYear, nextId, clock, id);
      genres, titles := genres - {id}, WithoutGenre(titles, id);
    }

    /**
     * delete() of an account: its reviews and comments go (CASCADE on
     * author), and so do the comments of others on the reviews that went.
     */
    method DeleteUser(id: nat)
      requires Valid()
      modifies this`users, this`reviews, this`comments
      ensures Valid()
      ensures users == old(users) - {id}
      ensures reviews == ReviewsNotBy(old(reviews), id)
      ensures comments == CommentsUnder(CommentsNotBy(old(comments), id), reviews)
    {
      DeleteUserKeeps(users, categories, genres, titles, reviews, comments, currentYear, nextId, clock, id);
      var kept := ReviewsNotBy(reviews, id);
      users, reviews, comments := users - {id}, kept, CommentsUnder(CommentsNotBy(comments, id), kept);
    }

    /** send_mail: the message reaches the mail server. */
    method Deliver(m: Mail)
      modifies this`outbox
      ensures outbox == old(outbox) + [m]
    {
      outbox := outbox + [m];
    }
  }
}
