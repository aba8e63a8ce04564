/**
 * The logic of the raffle creation form: reading the currency fields, reordering and removing
 * the uploaded images, naming the image files, deriving the close and expiration dates from the
 * draw date, and the warning when sales would open before publication.
 */
module RaffleCreate {
  import opened Wrappers
  import opened Seqs
  import opened Decimal

  /* --------------------------------------------------------- currency input */

  /** `value.replace(/\D/g, "")`: the ASCII digits of the input, in order. */
  function DigitsOnly(value: string): (r: string)
    ensures AllDigits(r)
  {
    FilterAllAccepted(value, IsDigit);
    Filter(value, IsDigit)
  }

  /** The digits are all gone exactly when the input held none. */
  lemma DigitsOnlyEmpty(value: string)
    ensures DigitsOnly(value) == [] <==> forall i :: 0 <= i < |value| ==> !IsDigit(value[i])
  {
    if DigitsOnly(value) != [] {
      FilterMembership(value, IsDigit, DigitsOnly(value)[0]);
    }
    if exists i :: 0 <= i < |value| && IsDigit(value[i]) {
      var i :| 0 <= i < |value| && IsDigit(value[i]);
      FilterMembership(value, IsDigit, value[i]);
    }
  }

  /**
   * `parseCurrency`: `Number(digits) || 0`. The digit string always converts to a number,
   * so `|| 0` only turns 0 into 0; input without any digit reads as 0.
   */
  function ParseCurrency(value: string): (n: nat)
    ensures (forall i :: 0 <= i < |value| ==> !IsDigit(value[i])) ==> n == 0
  {
    DigitsOnlyEmpty(value);
    ValueOf(DigitsOnly(value))
  }

  /** A string and its digits alone read the same: symbols, dots and spaces are ignored. */
  lemma ParseCurrencyIgnoresNonDigits(value: string)
    ensures ParseCurrency(value) == ParseCurrency(DigitsOnly(value))
  {
    FilterIdempotent(value, IsDigit);
  }

  /** A digit-free separator anywhere in the input (a thousands dot, a space) changes nothing. */
  lemma ParseCurrencyDropsSeparator(front: string, separator: string, back: string)
    requires forall i :: 0 <= i < |separator| ==> !IsDigit(separator[i])
    ensures ParseCurrency(front + separator + back) == ParseCurrency(front + back)
  {
    FilterAppend(front + separator, back, IsDigit);
    FilterAppend(front, separator, IsDigit);
    FilterAppend(front, back, IsDigit);
    DigitsOnlyEmpty(separator);
    assert DigitsOnly(front + separator + back) == DigitsOnly(front) + DigitsOnly(separator) + DigitsOnly(back);
    assert DigitsOnly(separator) == [];
    assert DigitsOnly(front + separator + back) == DigitsOnly(front + back);
  }

  /** An amount written in decimal, with any digit-free prefix and suffix ("$ ", " COP"), reads back as itself. */
  lemma ParseCurrencyReadsAmount(prefix: string, amount: nat, suffix: string)
    requires forall i :: 0 <= i < |prefix| ==> !IsDigit(prefix[i])
    requires forall i :: 0 <= i < |suffix| ==> !IsDigit(suffix[i])
    ensures ParseCurrency(prefix + ToDecimal(amount) + suffix) == amount
  {
    var digits := ToDecimal(amount);
    FilterAppend(prefix + digits, suffix, IsDigit);
    FilterAppend(prefix, digits, IsDigit);
    DigitsOnlyEmpty(prefix);
    DigitsOnlyEmpty(suffix);
    FilterUnchanged(digits, IsDigit);
    ValueOfToDecimal(amount);
    assert DigitsOnly(prefix + digits + suffix) == DigitsOnly(prefix) + DigitsOnly(digits) + DigitsOnly(suffix);
    assert DigitsOnly(digits) == digits;
    assert DigitsOnly(prefix + digits + suffix) == digits;
  }

  /* ---------------------------------------------------------- image list */

  /** What the drag-and-drop library reports when a drag ends; no destination when dropped outside. */
  datatype DragResult = DragResult(sourceIndex: nat, destination: Option<nat>)

  /** The list without position `i`. */
  function Without<T>(s: seq<T>, i: nat): seq<T>
    requires i < |s|
  {
    s[..i] + s[i + 1..]
  }

  /**
   * The element at `from` placed at `to`, the elements between sliding one place toward `from`:
   * a rotation of the stretch between the two positions.
   */
  function Moved<T>(s: seq<T>, from: nat, to: nat): seq<T>
    requires from < |s| && to < |s|
  {
    if from <= to then s[..from] + s[from + 1..to + 1] + [s[from]] + s[to + 1..]
    else s[..to] + [s[from]] + s[to..from] + s[from + 1..]
  }

  /** Taking an element out and counting it separately loses nothing. */
  lemma MultisetWithout<T>(s: seq<T>, i: nat)
    requires i < |s|
    ensures multiset(s) == multiset(Without(s, i)) + multiset{s[i]}
  {
    assert s == s[..i] + [s[i]] + s[i + 1..];
  }

  lemma MovedForward<T>(s: seq<T>, from: nat, to: nat)
    requires from <= to < |s|
    ensures |Moved(s, from, to)| == |s| && Moved(s, from, to)[to] == s[from]
    ensures Without(Moved(s, from, to), to) == Without(s, from)
  {
    var r := Moved(s, from, to);
    assert r[..to] == s[..from] + s[from + 1..to + 1];
    assert r[to + 1..] == s[to + 1..];
    assert s[from + 1..] == s[from + 1..to + 1] + s[to + 1..];
  }

  lemma MovedBackward<T>(s: seq<T>, from: nat, to: nat)
    requires to < from < |s|
    ensures |Moved(s, from, to)| == |s| && Moved(s, from, to)[to] == s[from]
    ensures Without(Moved(s, from, to), to) == Without(s, from)
  {
    var r := Moved(s, from, to);
    assert r[..to] == s[..to];
    assert r[to + 1..] == s[to..from] + s[from + 1..];
    assert s[..from] == s[..to] + s[to..from];
  }

  /**
   * A move keeps the length and the multiset, puts the moved element at `to`, and keeps the
   * other elements in their relative order.
   */
  lemma MovedIsAMove<T>(s: seq<T>, from: nat, to: nat)
    requires from < |s| && to < |s|
    ensures |Moved(s, from, to)| == |s|
    ensures multiset(Moved(s, from, to)) == multiset(s)
    ensures Moved(s, from, to)[to] == s[from]
    ensures Without(Moved(s, from, to), to) == Without(s, from)
  {
    if from <= to {
      MovedForward(s, from, to);
    } else {
      MovedBackward(s, from, to);
    }
    MultisetWithout(s, from);
    MultisetWithout(Moved(s, from, to), to);
  }

  /** Two lists of one length agree when they agree at `i` and once position `i` is taken out. */
  lemma EqualByWithout<T>(a: seq<T>, b: seq<T>, i: nat)
    requires |a| == |b| && i < |a| && a[i] == b[i] && Without(a, i) == Without(b, i)
    ensures a == b
  {
    assert a == a[..i] + [a[i]] + a[i + 1..];
    assert b == b[..i] + [b[i]] + b[i + 1..];
    assert a[..i] == Without(a, i)[..i] && a[i + 1..] == Without(a, i)[i..];
    assert b[..i] == Without(b, i)[..i] && b[i + 1..] == Without(b, i)[i..];
  }

  /** Dragging the element back to where it came from restores the list. */
  lemma MovedBack<T>(s: seq<T>, from: nat, to: nat)
    requires from < |s| && to < |s|
    ensures Moved(Moved(s, from, to), to, from) == s
  {
    var r := Moved(s, from, to);
    MovedIsAMove(s, from, to);
    MovedIsAMove(r, to, from);
    EqualByWithout(Moved(r, to, from), s, from);
  }

  /**
   * `handleDragEnd`: copy the list, splice the dragged image out of its source index and
   * back in at the destination index. The library reports indices of the list being dragged.
   */
  method HandleDragEnd<T>(images: seq<T>, result: DragResult) returns (r: seq<T>)
    requires result.destination.Some? ==>
      result.sourceIndex < |images| && result.destination.value < |images|
    ensures result.destination.None? ==> r == images
    ensures result.destination.Some? ==> r == Moved(images, result.sourceIndex, result.destination.value)
  {
    if result.destination.None? {
      return images;
    }
    var from, to := result.sourceIndex, result.destination.value;
    var reordered := images;
    var removed := reordered[from];
    reordered := reordered[..from] + reordered[from + 1..];
    ghost var shortened := reordered;
    reordered := reordered[..to] + [removed] + reordered[to..];
    r := reordered;
    if from <= to {
      assert shortened[..to] == images[..from] + images[from + 1..to + 1];
      assert shortened[to..] == images[to + 1..];
    } else {
      assert shortened[..to] == images[..to];
      assert shortened[to..] == images[to..from] + images[from + 1..];
    }
  }

  /** `filter((_, i) => i !== index)` over `s`, whose first element has index `k`. */
  function SkipIndex<T>(s: seq<T>, index: int, k: int): seq<T> {
    if s == [] then [] else (if k != index then [s[0]] else []) + SkipIndex(s[1..], index, k + 1)
  }

  lemma {:induction false} SkipIndexRemovesOne<T>(s: seq<T>, index: int, k: int)
    ensures k <= index < k + |s| ==> SkipIndex(s, index, k) == s[..index - k] + s[index - k + 1..]
    ensures !(k <= index < k + |s|) ==> SkipIndex(s, index, k) == s
  {
    if s != [] {
      SkipIndexRemovesOne(s[1..], index, k + 1);
      if k == index {
        assert SkipIndex(s[1..], index, k + 1) == s[1..];
      } else {
        assert s == [s[0]] + s[1..];
        if k < index < k + |s| {
          assert s[..index - k] == [s[0]] + s[1..][..index - k - 1];
        }
      }
    }
  }

  /** `handleRemoveImage`: exactly position `index` goes; an index outside the list removes nothing. */
  function RemoveImage<T>(images: seq<T>, index: int): (r: seq<T>)
    ensures 0 <= index < |images| ==> r == Without(images, index)
    ensures !(0 <= index < |images|) ==> r == images
  {
    SkipIndexRemovesOne(images, index, 0);
    SkipIndex(images, index, 0)
  }

  /** Removing the image at its new position after a drag is removing it at its old one. */
  lemma RemoveAfterMove<T>(images: seq<T>, from: nat, to: nat)
    requires from < |images| && to < |images|
    ensures RemoveImage(Moved(images, from, to), to) == RemoveImage(images, from)
  {
    MovedIsAMove(images, from, to);
  }

  /* ------------------------------------------------------- names of images */

  /** The characters JavaScript's `\s` matches: white space and line terminators. */
  predicate IsSpace(c: char) {
    c in SpaceChars || '\U{2000}' <= c <= '\U{200A}'
  }

  /** The white space of `\s` outside the range U+2000 to U+200A. */
  const SpaceChars: set<char> := {
    ' ', '\t', '\n', '\U{000B}', '\U{000C}', '\r', '\U{00A0}', '\U{1680}',
    '\U{2028}', '\U{2029}', '\U{202F}', '\U{205F}', '\U{3000}', '\U{FEFF}'
  }

  predicate NoSpace(s: string) {
    forall i :: 0 <= i < |s| ==> !IsSpace(s[i])
  }

  /** What is left after the run of white space at the start of `s`. */
  function SkipSpaces(s: string): (r: string)
    ensures |r| <= |s| && r == s[|s| - |r|..]
    ensures r == [] || !IsSpace(r[0])
    ensures forall i :: 0 <= i < |s| - |r| ==> IsSpace(s[i])
  {
    if s != [] && IsSpace(s[0]) then SkipSpaces(s[1..]) else s
  }

  /** `name.replace(/\s+/g, "_")`: every maximal run of white space becomes one underscore. */
  function NormalizeName(name: string): (r: string)
    ensures NoSpace(r)
    ensures |r| <= |name|
    decreases |name|
  {
    if name == [] then []
    else if IsSpace(name[0]) then "_" + NormalizeName(SkipSpaces(name))
    else [name[0]] + NormalizeName(name[1..])
  }

  /** A name without white space is left as it is, and only such a name. */
  lemma {:induction false} NormalizeNameUnchanged(name: string)
    ensures NormalizeName(name) == name <==> NoSpace(name)
  {
    if name != [] && !IsSpace(name[0]) {
      NormalizeNameUnchanged(name[1..]);
    }
  }

  /** Normalizing splits at any point that does not fall inside a run of white space. */
  lemma {:induction false} NormalizeNameAppend(front: string, back: string)
    requires front == [] || !IsSpace(front[|front| - 1])
    ensures NormalizeName(front + back) == NormalizeName(front) + NormalizeName(back)
    decreases |front|
  {
    if front == [] {
      assert front + back == back;
    } else if IsSpace(front[0]) {
      NormalizeNameAppendRun(front, back);
    } else {
      var s := front + back;
      assert s[0] == front[0] && s[1..] == front[1..] + back;
      NormalizeNameAppend(front[1..], back);
    }
  }

  /** The case of `NormalizeNameAppend` where `front` starts with white space. */
  lemma {:induction false} NormalizeNameAppendRun(front: string, back: string)
    requires front != [] && IsSpace(front[0]) && !IsSpace(front[|front| - 1])
    ensures NormalizeName(front + back) == NormalizeName(front) + NormalizeName(back)
    decreases |front|, 0
  {
    var rest := SkipSpaces(front);
    SkipSpacesOfSpaceToWord(front);
    SkipSpacesAppend(front, back);
    NormalizeNameSpaceHead(front + back, front);
    NormalizeNameAppend(rest, back);
    UnderscoreJoin(NormalizeName(front + back), NormalizeName(front), NormalizeName(rest), NormalizeName(back));
  }

  /** Regrouping of `"_" + (a + b)`, kept apart so the step needs no unfolding of `NormalizeName`. */
  lemma UnderscoreJoin(whole: string, head: string, a: string, b: string)
    requires whole == "_" + (a + b) && head == "_" + a
    ensures whole == head + b
  {
  }

  /** A name that starts with white space becomes an underscore before the rest after the run. */
  lemma NormalizeNameSpaceHead(s: string, front: string)
    requires front != [] && IsSpace(front[0]) && front <= s
    ensures NormalizeName(s) == "_" + NormalizeName(SkipSpaces(s))
    ensures NormalizeName(front) == "_" + NormalizeName(SkipSpaces(front))
  {
    assert s[0] == front[0];
  }

  /** Skipping a leading run that stops before a non-space shortens the text and keeps its end. */
  lemma SkipSpacesOfSpaceToWord(s: string)
    requires s != [] && IsSpace(s[0]) && !IsSpace(s[|s| - 1])
    ensures var r := SkipSpaces(s); 0 < |r| < |s| && !IsSpace(r[|r| - 1])
  {
    var r := SkipSpaces(s);
    assert r != [] by { assert !IsSpace(s[|s| - 1]); }
    assert r[|r| - 1] == s[|s| - 1];
  }

  lemma {:induction false} SkipSpacesAppend(front: string, back: string)
    requires front != [] && !IsSpace(front[|front| - 1])
    ensures SkipSpaces(front + back) == SkipSpaces(front) + back
  {
    if IsSpace(front[0]) {
      assert (front + back)[1..] == front[1..] + back;
      SkipSpacesAppend(front[1..], back);
    }
  }

  /** A run of white space followed by a non-space becomes a single underscore. */
  lemma NormalizeNameRun(run: string, back: string)
    requires run != [] && forall i :: 0 <= i < |run| ==> IsSpace(run[i])
    requires back == [] || !IsSpace(back[0])
    ensures NormalizeName(run + back) == "_" + NormalizeName(back)
  {
    SkipSpacesOfRun(run, back);
    assert (run + back)[0] == run[0];
  }

  lemma {:induction false} SkipSpacesOfRun(run: string, back: string)
    requires forall i :: 0 <= i < |run| ==> IsSpace(run[i])
    requires back == [] || !IsSpace(back[0])
    ensures SkipSpaces(run + back) == back
  {
    if run != [] {
      assert (run + back)[1..] == run[1..] + back;
      SkipSpacesOfRun(run[1..], back);
    } else {
      assert run + back == back;
    }
  }

  /** Normalizing a normalized name changes nothing. */
  lemma NormalizeNameIdempotent(name: string)
    ensures NormalizeName(NormalizeName(name)) == NormalizeName(name)
  {
    NormalizeNameUnchanged(NormalizeName(name));
  }

  /** The file names in `handleCreateRaffle`: one per image, `<name>_<position from 1>.webp`. */
  function ImageFilenames<T>(normalizedName: string, images: seq<T>): (r: seq<string>)
    ensures |r| == |images|
    ensures forall k :: 0 <= k < |r| ==> r[k] == normalizedName + "_" + ToDecimal(k + 1) + ".webp"
  {
    seq(|images|, k requires 0 <= k < |images| => normalizedName + "_" + ToDecimal(k + 1) + ".webp")
  }

  /** The stored URLs: `<name>/<file name>`, in image order. */
  function ImageUrls(normalizedName: string, filenames: seq<string>): (r: seq<string>)
    ensures |r| == |filenames|
    ensures forall k :: 0 <= k < |r| ==> r[k] == normalizedName + "/" + filenames[k]
  {
    seq(|filenames|, k requires 0 <= k < |filenames| => normalizedName + "/" + filenames[k])
  }

  /** No two images are uploaded under the same file name, so none overwrites another. */
  lemma ImageFilenamesDistinct<T>(normalizedName: string, images: seq<T>, j: nat, k: nat)
    requires j < |images| && k < |images| && j != k
    ensures ImageFilenames(normalizedName, images)[j] != ImageFilenames(normalizedName, images)[k]
  {
    var names := ImageFilenames(normalizedName, images);
    var stem := normalizedName + "_";
    var dj, dk := ToDecimal(j + 1), ToDecimal(k + 1);
    ValueOfToDecimal(j + 1);
    ValueOfToDecimal(k + 1);
    assert dj != dk;
    assert names[j] == stem + dj + ".webp" && names[k] == stem + dk + ".webp";
    assert |names[j]| == |stem| + |dj| + 5 && |names[k]| == |stem| + |dk| + 5;
    assert names[j][|stem|..|stem| + |dj|] == dj;
    assert names[k][|stem|..|stem| + |dk|] == dk;
  }

  /** Distinct file names give distinct URLs. */
  lemma ImageUrlsDistinct<T>(normalizedName: string, images: seq<T>, j: nat, k: nat)
    requires j < |images| && k < |images| && j != k
    ensures ImageUrls(normalizedName, ImageFilenames(normalizedName, images))[j] !=
      ImageUrls(normalizedName, ImageFilenames(normalizedName, images))[k]
  {
    var names := ImageFilenames(normalizedName, images);
    var urls := ImageUrls(normalizedName, names);
    ImageFilenamesDistinct(normalizedName, images, j, k);
    var prefix := normalizedName + "/";
    assert urls[j][|prefix|..] == names[j];
    assert urls[k][|prefix|..] == names[k];
  }

  /* --------------------------------------------------------------- dates */

  /** What a number input reports: a number, or the raw text when it does not hold one. */
  datatype NumberInputValue = Number(n: int) | Text(s: string)

  const DefaultDaysCloseDate: int := 2
  const DefaultDaysExpirationDate: int := 30

  /** The day-offset inputs: `typeof value === 'number' ? value : fallback`. */
  function DaysOrDefault(value: NumberInputValue, fallback: int): (days: int)
    ensures value.Number? ==> days == value.n
    ensures value.Text? ==> days == fallback
  {
    match value
    case Number(n) => n
    case Text(_) => fallback
  }

  /**
   * The date part of the form. Dates are day numbers; the close and expiration pickers are
   * disabled, so only the effects below ever set them.
   */
  class RaffleDates {
    var gameDate: Option<int>
    var daysCloseDate: int
    var closeDate: Option<int>
    var daysExpirationDate: int
    var expirationDate: Option<int>
    /** Publication and sale opening, as instants on the clock's scale. */
    var publicationDateTime: Option<int>
    var saleDateTime: Option<int>

    /** The effects have caught up: once a draw date is set, the derived dates follow it. */
    ghost predicate Valid()
      reads this
    {
      gameDate.Some? ==>
        closeDate == Some(gameDate.value - daysCloseDate) &&
        expirationDate == Some(gameDate.value + daysExpirationDate)
    }

    /** The initial form: no dates, offsets of 2 and 30 days. */
    constructor ()
      ensures Valid()
      ensures gameDate.None? && closeDate.None? && expirationDate.None?
      ensures daysCloseDate == DefaultDaysCloseDate && daysExpirationDate == DefaultDaysExpirationDate
      ensures publicationDateTime.None? && saleDateTime.None?
    {
      gameDate, closeDate, expirationDate := None, None, None;
      publicationDateTime, saleDateTime := None, None;
      daysCloseDate, daysExpirationDate := DefaultDaysCloseDate, DefaultDaysExpirationDate;
    }

    /** The effect on `[gameDate, daysCloseDate]`: the close date is the draw date less the offset. */
    method CloseDateEffect()
      modifies this`closeDate
      ensures gameDate.Some? ==> closeDate == Some(gameDate.value - daysCloseDate)
      ensures gameDate.None? ==> closeDate == old(closeDate)
    {
      if gameDate.Some? {
        closeDate := Some(gameDate.value - daysCloseDate);
      }
    }

    /** The effect on `[gameDate, daysExpirationDate]`: the expiration is the draw date plus the offset. */
    method ExpirationDateEffect()
      modifies this`expirationDate
      ensures gameDate.Some? ==> expirationDate == Some(gameDate.value + daysExpirationDate)
      ensures gameDate.None? ==> expirationDate == old(expirationDate)
    {
      if gameDate.Some? {
        expirationDate := Some(gameDate.value + daysExpirationDate);
      }
    }

    /** The draw-date picker changed; clearing it leaves the derived dates as they were. */
    method SetGameDate(date: Option<int>)
      requires Valid()
      modifies this`gameDate, this`closeDate, this`expirationDate
      ensures Valid()
      ensures gameDate == date
      ensures daysCloseDate == old(daysCloseDate) && daysExpirationDate == old(daysExpirationDate)
      ensures date.None? ==> closeDate == old(closeDate) && expirationDate == old(expirationDate)
    {
      gameDate := date;
      CloseDateEffect();
      ExpirationDateEffect();
    }

    /** The close-offset input changed; text that is not a number resets the offset to 2. */
    method SetDaysCloseDate(value: NumberInputValue)
      requires Valid()
      modifies this`daysCloseDate, this`closeDate
      ensures Valid()
      ensures daysCloseDate == DaysOrDefault(value, DefaultDaysCloseDate)
      ensures gameDate == old(gameDate) && daysExpirationDate == old(daysExpirationDate)
      ensures expirationDate == old(expirationDate)
      ensures gameDate.None? ==> closeDate == old(closeDate)
    {
      daysCloseDate := DaysOrDefault(value, DefaultDaysCloseDate);
      CloseDateEffect();
    }

    /** The expiration-offset input changed; text that is not a number resets the offset to 30. */
    method SetDaysExpirationDate(value: NumberInputValue)
      requires Valid()
      modifies this`daysExpirationDate, this`expirationDate
      ensures Valid()
      ensures daysExpirationDate == DaysOrDefault(value, DefaultDaysExpirationDate)
      ensures gameDate == old(gameDate) && daysCloseDate == old(daysCloseDate)
      ensures closeDate == old(closeDate)
      ensures gameDate.None? ==> expirationDate == old(expirationDate)
    {
      daysExpirationDate := DaysOrDefault(value, DefaultDaysExpirationDate);
      ExpirationDateEffect();
    }

    /**
     * The effect on `[publicationDateTime, saleDateTime]`: `notify` says whether the warning
     * notification is shown, which is when both instants are set and sales open first.
     */
    method SaleWarningEffect() returns (notify: bool)
      ensures notify <==>
        publicationDateTime.Some? && saleDateTime.Some? && saleDateTime.value < publicationDateTime.value
    {
      notify := false;
      if publicationDateTime.Some? && saleDateTime.Some? {
        notify := saleDateTime.value < publicationDateTime.value;
      }
    }

    /** The publication picker changed; the warning effect runs on the new pair. */
    method SetPublicationDateTime(date: Option<int>) returns (notify: bool)
      requires Valid()
      modifies this`publicationDateTime
      ensures Valid()
      ensures publicationDateTime == date && saleDateTime == old(saleDateTime)
      ensures notify <==> date.Some? && saleDateTime.Some? && saleDateTime.value < date.value
      ensures date.None? || saleDateTime.None? ==> !notify
    {
      publicationDateTime := date;
      notify := SaleWarningEffect();
    }

    /** The sale picker changed; the warning effect runs on the new pair. */
    method SetSaleDateTime(date: Option<int>) returns (notify: bool)
      requires Valid()
      modifies this`saleDateTime
      ensures Valid()
      ensures saleDateTime == date && publicationDateTime == old(publicationDateTime)
      ensures notify <==> publicationDateTime.Some? && date.Some? && date.value < publicationDateTime.value
      ensures date.None? || publicationDateTime.None? ==> !notify
    {
      saleDateTime := date;
      notify := SaleWarningEffect();
    }

    /**
     * "Publish immediately": publication becomes the current instant `now`. It warns exactly when
     * sales were already set to open before now, so never when they open now or later.
     */
    method PublishImmediately(now: int) returns (notify: bool)
      requires Valid()
      modifies this`publicationDateTime
      ensures Valid()
      ensures publicationDateTime == Some(now) && saleDateTime == old(saleDateTime)
      ensures notify <==> saleDateTime.Some? && saleDateTime.value < now
    {
      notify := SetPublicationDateTime(Some(now));
    }

    /**
     * "Sell immediately": sales open at the current instant `now`. With publication already set
     * no later than now, as after publishing immediately earlier on the same clock, it never warns.
     */
    method SellImmediately(now: int) returns (notify: bool)
      requires Valid()
      modifies this`saleDateTime
      ensures Valid()
      ensures saleDateTime == Some(now) && publicationDateTime == old(publicationDateTime)
      ensures notify <==> publicationDateTime.Some? && now < publicationDateTime.value
      ensures publicationDateTime.Some? && publicationDateTime.value <= now ==> !notify
    {
      notify := SetSaleDateTime(Some(now));
    }
  }

  /** With non-negative offsets, a form whose effects have run closes no later than the draw and expires no earlier. */
  lemma DatesOrdered(dates: RaffleDates)
    requires dates.Valid() && dates.gameDate.Some?
    requires dates.daysCloseDate >= 0 && dates.daysExpirationDate >= 0
    ensures dates.closeDate.Some? && dates.closeDate.value <= dates.gameDate.value
    ensures dates.expirationDate.Some? && dates.gameDate.value <= dates.expirationDate.value
  {
  }
}
