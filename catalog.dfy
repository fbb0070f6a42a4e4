/**
 * The catalogue and its content, after reviews/models.py: Category, Genre,
 * Title, Review and Comment, with the field constraints the source
 * declares. Foreign keys are ids; pub_date is a tick of a monotonic clock.
 */
module Catalog {
  import opened Wrappers

  datatype Category = Category(id: nat, name: string, slug: string)

  datatype Genre = Genre(id: nat, name: string, slug: string)

  /** category is the nullable foreign key (SET_NULL); genres is the many-to-many relation. */
  datatype Title = Title(
    id: nat,
    name: string,
    year: nat,
    description: Option<string>,
    category: Option<nat>,
    genres: set<nat>)

  datatype Review = Review(id: nat, title: nat, author: nat, text: string, score: int, pubDate: nat)

  datatype Comment = Comment(id: nat, review: nat, author: nat, text: string, pubDate: nat)

  const MinScore: int := 1
  const MaxScore: int := 10

  /** MinValueValidator(1) and MaxValueValidator(10) on Review.score. */
  predicate ValidScore(score: int)
  {
    MinScore <= score <= MaxScore
  }

  /**
   * A PositiveIntegerField with MaxValueValidator(dt.datetime.today().year).
   * The bound is computed once, when the module is loaded; currentYear is that value.
   */
  predicate ValidYear(year: int, currentYear: nat)
  {
    0 <= year <= currentYear
  }

  const CatalogNameMaxLength: nat := 256
  const SlugMaxLength: nat := 50
  const DescriptionMaxLength: nat := 256

  /** The characters a SlugField admits: ASCII letters, digits, '-' and '_'. */
  predicate IsSlugChar(c: char)
  {
    ('a' <= c <= 'z') || ('A' <= c <= 'Z') || ('0' <= c <= '9') || c == '-' || c == '_'
  }

  predicate IsSlug(s: string)
  {
    |s| > 0 && forall i :: 0 <= i < |s| ==> IsSlugChar(s[i])
  }
}
