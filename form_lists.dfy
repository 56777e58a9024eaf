/**
 * The list editing the two product forms share: adding a typed tag
 * (src/components/ProductModal.jsx `handleAddTag`, and the Enter branch of
 * frontend/src/components/ProductModal.jsx `handleTagKeyPress`), removing
 * every copy of a tag or colour, and toggling a colour.
 */
module FormLists {
  import opened Text

  /** The tag list and the tag input after an add. */
  datatype TagEdit = TagEdit(tags: seq<string>, input: string)

  /**
   * Adds the trimmed input when it is non-empty and not already a tag; only
   * then is the input cleared. Otherwise both stay as they were.
   */
  function AddTag(tags: seq<string>, input: string): (r: TagEdit)
    ensures Trim(input) != "" && Trim(input) !in tags ==> r == TagEdit(tags + [Trim(input)], "")
    ensures Trim(input) == "" || Trim(input) in tags ==> r == TagEdit(tags, input)
    ensures forall t | t in r.tags :: t in tags || t == Trim(input)
  {
    var trimmed := Trim(input);
    if trimmed != "" && trimmed !in tags then TagEdit(tags + [trimmed], "") else TagEdit(tags, input)
  }

  /** `colors.includes(color) ? colors.filter(c => c !== color) : [...colors, color]`. */
  function Toggle(colors: seq<string>, color: string): (r: seq<string>)
    ensures color in r <==> color !in colors
  {
    if color in colors then Without(colors, color) else colors + [color]
  }

  /** Putting a fresh element in front of a duplicate-free list keeps it duplicate-free. */
  lemma ConsNoDuplicates<T>(head: T, rest: seq<T>)
    requires NoDuplicates(rest) && head !in rest
    ensures NoDuplicates([head] + rest)
  {
    var r := [head] + rest;
    forall i, j | 0 <= i < j < |r| ensures r[i] != r[j] {
      assert r[j] == rest[j - 1];
      if i > 0 {
        assert r[i] == rest[i - 1];
      }
    }
  }

  /** Removal keeps a list duplicate-free. */
  lemma {:induction false} WithoutNoDuplicates<T>(xs: seq<T>, x: T)
    requires NoDuplicates(xs)
    ensures NoDuplicates(Without(xs, x))
  {
    if xs != [] {
      var rest := Without(xs[1..], x);
      WithoutNoDuplicates(xs[1..], x);
      if xs[0] != x {
        WithoutMultiset(xs[1..], x);
        assert multiset(rest)[xs[0]] == 0;
        ConsNoDuplicates(xs[0], rest);
      }
    }
  }

  /** Adding tags keeps the tag list duplicate-free. */
  lemma AddTagNoDuplicates(tags: seq<string>, input: string)
    ensures NoDuplicates(tags) ==> NoDuplicates(AddTag(tags, input).tags)
  {
  }

  /** Toggling keeps the colour list duplicate-free. */
  lemma ToggleNoDuplicates(colors: seq<string>, color: string)
    ensures NoDuplicates(colors) ==> NoDuplicates(Toggle(colors, color))
  {
    if color in colors && NoDuplicates(colors) {
      WithoutNoDuplicates(colors, color);
    }
  }

  /** Toggling an absent colour twice gives back the original list. */
  lemma ToggleTwice(colors: seq<string>, color: string)
    requires color !in colors
    ensures Toggle(Toggle(colors, color), color) == colors
  {
    WithoutAppend(colors, [color], color);
    assert Without([color], color) == [];
  }
}
