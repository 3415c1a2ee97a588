/**
 White space in range lists (src/utils/numeric.py). The docstring of parse_str_to_list says that it
 is ignored; the code removes the space character, and int() strips some other white space at the
 ends of a range's bounds. This is exactly when a text is read as if it had no white space.
 */
module RangeWhiteSpace {
  import opened Wrappers
  import opened Text
  import opened RangeParser
  import opened RangePrinter
  import opened RangeRoundTrip

  /** The text without any ASCII white space. */
  function Squeeze(s: string): string {
    if s == [] then [] else (if IsSpace(s[0]) then [] else [s[0]]) + Squeeze(s[1..])
  }

  ghost predicate SpaceFree(s: string) { forall c :: c in s ==> !IsSpace(c) }

  /** All white space of a bound stands at its ends, where int() strips it. */
  ghost predicate OuterSpaceOnly(bound: string) { SpaceFree(TrimInt(bound)) }

  ghost predicate IsRange(item: string) { |Split(item, '-')| == 2 }

  /** The docstring's reading of an item, from which the spaces have been removed. */
  ghost predicate ReadAsPromised(item: string) {
    ParseSegment(item) == ParseSegment(Squeeze(item))
  }

  /**
   The item is invalid even without white space, or has none, or is a range whose white space stands
   only at the ends of its two bounds and is of the kind int() strips.
   */
  ghost predicate Harmless(item: string) {
    || ParseSegment(Squeeze(item)).None?
    || SpaceFree(item)
    || (IsRange(item) && forall p :: p in Split(item, '-') ==> OuterSpaceOnly(p))
  }

  lemma {:induction false} SqueezeIsFree(s: string)
    ensures SpaceFree(Squeeze(s))
  {
    if s != [] {
      SqueezeIsFree(s[1..]);
    }
  }

  lemma {:induction false} SqueezeFree(s: string)
    ensures SpaceFree(s) <==> Squeeze(s) == s
  {
    if s != [] {
      SqueezeFree(s[1..]);
      assert s == [s[0]] + s[1..];
      SqueezeShortens(s[1..]);
    }
  }

  lemma {:induction false} SqueezeShortens(s: string)
    ensures |Squeeze(s)| <= |s|
  {
    if s != [] {
      SqueezeShortens(s[1..]);
    }
  }

  lemma {:induction false} SqueezeAppend(a: string, b: string)
    ensures Squeeze(a + b) == Squeeze(a) + Squeeze(b)
  {
    if a == [] {
      assert a + b == b;
    } else {
      assert (a + b)[1..] == a[1..] + b;
      SqueezeAppend(a[1..], b);
    }
  }

  /** Removing the spaces first makes no difference to what is left in the end. */
  lemma {:induction false} SqueezeAfterRemove(s: string)
    ensures Squeeze(RemoveSpaces(s)) == Squeeze(s)
  {
    if s != [] {
      SqueezeAfterRemove(s[1..]);
      SqueezeAppend(if s[0] == ' ' then [] else [s[0]], RemoveSpaces(s[1..]));
    }
  }

  lemma SqueezeCons(x: char, s: string)
    ensures Squeeze([x] + s) == if IsSpace(x) then Squeeze(s) else [x] + Squeeze(s)
  {
    assert ([x] + s)[1..] == s;
  }

  lemma SqueezeNothing()
    ensures Squeeze([]) == []
  {
  }

  /** Trimming removes only white space. */
  lemma {:induction false} SqueezeTrimmed(s: string)
    ensures Squeeze(TrimInt(s)) == Squeeze(s)
    decreases |s|
  {
    hide Squeeze;
    if s != [] && IsIntSpace(s[0]) {
      SqueezeTrimmed(s[1..]);
      assert s == [s[0]] + s[1..];
      SqueezeCons(s[0], s[1..]);
    } else if s != [] && IsIntSpace(s[|s| - 1]) {
      var front, last := s[..|s| - 1], s[|s| - 1];
      SqueezeTrimmed(front);
      assert s == front + [last] && [last] == [last] + [];
      SqueezeAppend(front, [last]);
      SqueezeCons(last, []);
      SqueezeNothing();
    }
  }

  lemma TrimFree(s: string)
    requires SpaceFree(s)
    ensures TrimInt(s) == s
  {
    if s != [] {
      assert s[0] in s && s[|s| - 1] in s;
    }
  }

  /** What int() accepts after trimming has no white space. */
  lemma NumberIsFree(t: string)
    requires IsDigitGroups(if t != [] && (t[0] == '+' || t[0] == '-') then t[1..] else t)
    ensures SpaceFree(t)
  {
    var body := if t != [] && (t[0] == '+' || t[0] == '-') then t[1..] else t;
    forall i | 0 <= i < |t|
      ensures !IsSpace(t[i])
    {
      if body != t && i > 0 {
        assert t[i] == body[i - 1];
      }
    }
  }

  lemma ParsedIsTrimmed(bound: string)
    requires TrimInt(bound) == TrimInt(Squeeze(bound))
    ensures ParseInt(bound) == ParseInt(Squeeze(bound))
  {
    hide TrimInt, OnlyDigits, IsDigitGroups, Squeeze;
  }

  /** int() reads a bound with white space at its ends only as if there were none, and no other bound with white space. */
  lemma BoundExactly(bound: string)
    ensures ParseInt(bound).Some? ==> OuterSpaceOnly(bound)
    ensures OuterSpaceOnly(bound) ==> ParseInt(bound) == ParseInt(Squeeze(bound))
  {
    hide TrimInt, OnlyDigits, IsDigitGroups, Squeeze, SpaceFree;
    var t := TrimInt(bound);
    if ParseInt(bound).Some? {
      NumberIsFree(t);
    }
    if SpaceFree(t) {
      SqueezeTrimmed(bound);
      SqueezeFree(t);
      TrimFree(t);
      ParsedIsTrimmed(bound);
    }
  }

  lemma SplitCons(x: char, s: string, sep: char)
    ensures Split([x] + s, sep) == if x == sep then [[]] + Split(s, sep) else [[x] + Split(s, sep)[0]] + Split(s, sep)[1..]
  {
    assert ([x] + s)[1..] == s;
  }

  /** The parts of a text, each without its white space. */
  function SqueezeAll(parts: seq<string>): (r: seq<string>)
    ensures |r| == |parts| && forall i :: 0 <= i < |r| ==> r[i] == Squeeze(parts[i])
  {
    seq(|parts|, i requires 0 <= i < |parts| => Squeeze(parts[i]))
  }

  lemma SqueezeAllCons(part: string, parts: seq<string>)
    ensures SqueezeAll([part] + parts) == [Squeeze(part)] + SqueezeAll(parts)
  {
    hide Squeeze;
  }

  /** Removing white space keeps the separators, so the parts correspond. */
  lemma {:induction false} SplitSqueezed(s: string, sep: char)
    requires !IsSpace(sep)
    ensures Split(Squeeze(s), sep) == SqueezeAll(Split(s, sep))
  {
    if s == [] {
      assert Split(s, sep) == [[]] && Squeeze(s) == [];
    } else {
      var x, r := s[0], s[1..];
      assert s == [x] + r;
      hide Split, Squeeze, SqueezeAll, IsSpace;
      var parts := Split(r, sep);
      SplitSqueezed(r, sep);
      SplitCons(x, r, sep);
      SqueezeCons(x, r);
      SplitCons(x, Squeeze(r), sep);
      assert parts == [parts[0]] + parts[1..];
      SqueezeAllCons(parts[0], parts[1..]);
      if x == sep {
        SqueezeNothing();
        SqueezeAllCons([], parts);
      } else {
        SqueezeCons(x, parts[0]);
        SqueezeAllCons([x] + parts[0], parts[1..]);
      }
    }
  }

  /** A range is valid exactly when both bounds are numbers; a text without a hyphen is valid exactly when it is numeric. */
  lemma SegmentForms(num: string)
    ensures IsRange(num) ==> (ParseSegment(num).Some? <==> ParseInt(Split(num, '-')[0]).Some? && ParseInt(Split(num, '-')[1]).Some?)
    ensures !IsRange(num) && !IsNumeric(num) ==> ParseSegment(num).None?
    ensures IsNumeric(num) ==> SpaceFree(num) && !IsRange(num)
  {
    if IsNumeric(num) {
      assert forall i :: 0 <= i < |num| ==> num[i] in num;
      SplitFree(num, '-');
    }
  }

  /** The value of a range is determined by its bounds. */
  lemma SameBounds(a: string, b: string)
    requires IsRange(a) && IsRange(b)
    requires ParseInt(Split(a, '-')[0]) == ParseInt(Split(b, '-')[0]) && ParseInt(Split(a, '-')[1]) == ParseInt(Split(b, '-')[1])
    ensures ParseSegment(a) == ParseSegment(b)
  {
    SegmentForms(a);
    SegmentForms(b);
    hide ParseInt, Split, IsNumeric;
  }

  /** Harmless white space, and no other, is ignored; an item with other white space is skipped. */
  lemma ItemReadExactly(item: string)
    ensures ReadAsPromised(item) <==> Harmless(item)
    ensures !Harmless(item) ==> ParseSegment(item).None?
  {
    hide Split, ParseInt, ParseSegment, IsNumeric, OuterSpaceOnly, TrimInt, Squeeze, SpaceFree;
    var bare := Squeeze(item);
    SqueezeFree(item);
    SplitSqueezed(item, '-');
    SegmentForms(item);
    SegmentForms(bare);
    if SpaceFree(item) {
      assert item == bare;
    } else if IsRange(item) {
      var parts := Split(item, '-');
      BoundExactly(parts[0]);
      BoundExactly(parts[1]);
      assert parts == [parts[0], parts[1]];
      if OuterSpaceOnly(parts[0]) && OuterSpaceOnly(parts[1]) {
        SameBounds(item, bare);
      } else {
        assert ParseSegment(item).None?;
      }
    } else {
      assert ParseSegment(item).None?;
    }
  }

  // ---------------------------------------------------------------- the whole text

  /** The items of a text with harmful white space are missing among the segments; the others are there. */
  lemma {:induction false} HarmedItemsAreMissing(items: seq<string>)
    ensures var segments, promised := ValidSegments(items), ValidSegments(SqueezeAll(items));
            && Total(segments) <= Total(promised)
            && ((forall item :: item in items ==> Harmless(item)) ==> segments == promised)
            && ((exists item :: item in items && !Harmless(item)) ==> Total(segments) < Total(promised))
  {
    hide ValidSegments, Total, ParseSegment, Squeeze, Harmless, ReadAsPromised;
    if items == [] {
      assert SqueezeAll(items) == items;
    } else {
      var before, last := items[..|items| - 1], items[|items| - 1];
      HarmedItemsAreMissing(before);
      assert items == before + [last];
      assert SqueezeAll(items) == SqueezeAll(before) + [Squeeze(last)];
      AddSegment(before, last);
      AddSegment(SqueezeAll(before), Squeeze(last));
      LastItem(last);
    }
  }

  lemma LastItem(item: string)
    ensures Harmless(item) ==> ParseSegment(item) == ParseSegment(Squeeze(item))
    ensures !Harmless(item) ==> ParseSegment(item).None? && ParseSegment(Squeeze(item)).Some?
  {
    ItemReadExactly(item);
    hide ParseSegment;
  }

  lemma SplitPromised(s: string)
    ensures Split(RemoveSpaces(Squeeze(s)), ',') == SqueezeAll(Split(RemoveSpaces(s), ','))
  {
    hide Split, Squeeze, RemoveSpaces, SqueezeAll;
    SqueezeAfterRemove(s);
    SqueezeIsFree(s);
    assert Free(Squeeze(s), ' ') by {
      assert forall i :: 0 <= i < |Squeeze(s)| ==> Squeeze(s)[i] in Squeeze(s);
    }
    RemoveNoSpaces(Squeeze(s));
    SplitSqueezed(RemoveSpaces(s), ',');
  }

  /**
   A text is read as if it had no white space, which is what the docstring promises, exactly when it
   is refused anyway or the white space of all its items is harmless.
   */
  lemma WhiteSpaceIgnoredExactly(s: string, maxItems: int)
    ensures Parse(s, maxItems) == Parse(Squeeze(s), maxItems) <==>
              || Parse(s, maxItems).Err?
              || forall item :: item in Split(RemoveSpaces(s), ',') ==> Harmless(item)
  {
    hide Split, RemoveSpaces, Squeeze, ValidSegments, Total, Harmless, Expand;
    var items := Split(RemoveSpaces(s), ',');
    SplitPromised(s);
    HarmedItemsAreMissing(items);
    ExpandSize(ValidSegments(items));
    ExpandSize(ValidSegments(SqueezeAll(items)));
  }

  /** White space that int() strips is ignored next to a bound of a range. */
  lemma WhiteSpaceBesideBound(a: nat, b: nat, c: char)
    requires a <= b && IsIntSpace(c)
    ensures ParseSegment(Digits(a) + ['-'] + [c] + Digits(b)) == Some((a, b))
  {
    var right := [c] + Digits(b);
    var item := Digits(a) + ['-'] + right;
    assert item == Digits(a) + ['-'] + [c] + Digits(b);
    assert item[|Digits(a)|] == '-' && item[|Digits(a)|] in item;
    ShownIsFree(a, '-');
    ShownIsFree(b, '-');
    assert Free(right, '-') && !IsNumeric(item);
    assert Show(a) == Digits(a) && Show(b) == Digits(b);
    hide ParseInt, Split, Digits, IsNumeric, Show;
    SplitAtSeparator(Digits(a), '-', right);
    SplitFree(right, '-');
    ParseIntOfDigits(a);
    ParseIntOfDigits(b);
    DigitsAfterSpace(b, c);
  }

  lemma TrimAfterSpace(s: string, c: char)
    requires IsIntSpace(c)
    ensures TrimInt([c] + s) == TrimInt(s)
  {
    assert ([c] + s)[1..] == s;
  }

  lemma DigitsAfterSpace(n: nat, c: char)
    requires IsIntSpace(c)
    ensures ParseInt([c] + Digits(n)) == ParseInt(Digits(n))
  {
    hide Digits, OnlyDigits, IsDigitGroups, DigitsValue;
    TrimAfterSpace(Digits(n), c);
    hide TrimInt;
  }

  /** A tab in front of a single number makes it invalid. */
  lemma TabBeforeNumber(n: nat)
    ensures ParseSegment(RemoveSpaces("\t" + Digits(n))) == None && !Harmless(RemoveSpaces("\t" + Digits(n)))
  {
    var digits := Digits(n);
    OnlySpacesAreIgnored(n, '\t');
    assert "\t" + digits == ['\t'] + digits;
    assert ("\t" + digits)[1..] == digits;
    SqueezeFree(digits);
    assert Squeeze("\t" + digits) == [] + digits == ShowSegment((n, n));
    SqueezeAfterRemove("\t" + digits);
    ItemReadExactly(RemoveSpaces("\t" + digits));
    hide ParseSegment, Squeeze, RemoveSpaces, Harmless;
    NaturalSegmentParses((n, n));
  }
}
