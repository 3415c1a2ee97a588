/**
 Submission formats of Communication problems (src/services/prospec/communication.py) and the
 file names a format stands for.
 */
module SubmissionFormat {
  import opened Collections
  import opened Wrappers
  import opened Text

  const PLACEHOLDER: string := "%l"

  /** The source extensions listed in COMPILER_INFOS (src/services/chal.py). */
  const SOURCE_EXTS: set<string> := {"c", "cpp", "rs", "py", "java", "s"}

  /** A decoded JSON value, as far as the validation looks at it. */
  datatype RawItem = Str(text: string) | NotAString
  datatype RawFormat = NotAList | Items(items: seq<RawItem>)

  datatype FormatError = EmptyFormat | NonStringName | BadName | DuplicateName

  predicate ValidName(name: string) {
    && name != []
    && name[0] != '-' && name[0] != '@'
    && '\\' !in name
    && '\0' !in name
    && '/' !in name
    && name != "." && name != ".."
    && Count(name, PLACEHOLDER) == 1
    && EndsWith(name, ".%l")
  }

  /** What an accepted format looks like: a nonempty list of distinct, valid names. */
  predicate Normalized(format: seq<string>) {
    && format != []
    && Distinct(format)
    && forall name :: name in format ==> ValidName(name)
  }

  /** The raw value names exactly these files, up to surrounding white space. */
  predicate Names(value: RawFormat, format: seq<string>) {
    && value.Items?
    && |value.items| == |format|
    && forall i :: 0 <= i < |format| ==> value.items[i].Str? && Strip(value.items[i].text) == format[i]
  }

  /** What is wrong with the i-th item, if the earlier ones are taken as they are. */
  ghost predicate BadAt(items: seq<RawItem>, i: nat, error: FormatError)
    requires i < |items|
  {
    match error
    case EmptyFormat => false
    case NonStringName => items[i].NotAString?
    case BadName => items[i].Str? && !ValidName(Strip(items[i].text))
    case DuplicateName =>
      && items[i].Str? && ValidName(Strip(items[i].text))
      && exists k :: 0 <= k < i && items[k].Str? && Strip(items[k].text) == Strip(items[i].text)
  }

  /** The first item with which something is wrong. */
  ghost predicate FirstBad(items: seq<RawItem>, i: nat, error: FormatError)
    requires i < |items|
  {
    BadAt(items, i, error) && forall j, e :: 0 <= j < i ==> !BadAt(items, j, e)
  }

  lemma NothingBadSoFar(items: seq<RawItem>, i: nat)
    requires i < |items| && items[i].Str? && ValidName(Strip(items[i].text))
    requires forall k :: 0 <= k < i && items[k].Str? ==> Strip(items[k].text) != Strip(items[i].text)
    ensures forall e :: !BadAt(items, i, e)
  {
  }

  /** normalize_submission_format: accepted exactly when the raw value names a normalized format. */
  method NormalizeSubmissionFormat(value: RawFormat) returns (r: Result<seq<string>, FormatError>)
    ensures r.Ok? ==> Normalized(r.value) && Names(value, r.value)
    ensures r.Err? ==> !exists format :: Normalized(format) && Names(value, format)
    ensures r == Err(EmptyFormat) <==> value.NotAList? || value.items == []
    ensures r.Err? && value.Items? && value.items != [] ==> exists i :: 0 <= i < |value.items| && FirstBad(value.items, i, r.error)
  {
    if value.NotAList? || value.items == [] {
      return Err(EmptyFormat);
    }
    var result: seq<string> := [];
    for i := 0 to |value.items|
      invariant |result| == i
      invariant Distinct(result)
      invariant forall k :: 0 <= k < i ==>
          ValidName(result[k]) && value.items[k].Str? && Strip(value.items[k].text) == result[k]
      invariant forall j, e :: 0 <= j < i ==> !BadAt(value.items, j, e)
    {
      hide ValidName, Strip;
      if value.items[i].NotAString? {
        assert FirstBad(value.items, i, NonStringName);
        return Err(NonStringName);
      }
      var filename := Strip(value.items[i].text);
      if !ValidName(filename) {
        assert FirstBad(value.items, i, BadName);
        forall format | Names(value, format)
          ensures !Normalized(format)
        {
          assert format[i] == filename && format[i] in format;
        }
        return Err(BadName);
      }
      if filename in result {
        assert FirstBad(value.items, i, DuplicateName);
        forall format | Names(value, format)
          ensures !Normalized(format)
        {
          var k :| 0 <= k < i && result[k] == filename;
          assert format[k] == format[i];
        }
        return Err(DuplicateName);
      }
      NothingBadSoFar(value.items, i);
      result := result + [filename];
    }
    return Ok(result);
  }

  /** Normalizing is idempotent: a stored format names itself again. */
  lemma NormalizedNamesItself(format: seq<string>, value: RawFormat)
    requires Normalized(format) && value == Items(seq(|format|, i requires 0 <= i < |format| => Str(format[i])))
    requires forall name :: name in format ==> Trimmed(name)
    ensures forall other :: Names(value, other) <==> other == format
  {
    forall i | 0 <= i < |format|
      ensures Strip(format[i]) == format[i]
    {
      StripTrims(format[i]);
    }
  }

  /** Names the code strips before storing them carry no outer white space. */
  lemma AcceptedNamesAreTrimmed(value: RawFormat, format: seq<string>)
    requires Names(value, format)
    ensures forall name :: name in format ==> Trimmed(name)
  {
    forall i | 0 <= i < |format|
      ensures Trimmed(format[i])
    {
      StripTrims(value.items[i].text);
    }
  }

  function FileName(name: string, ext: string): string {
    Replace(name, PLACEHOLDER, ext)
  }

  /** The file names of one submission, in format order. */
  function FileNames(format: seq<string>, ext: string): (names: seq<string>)
    ensures |names| == |format|
    ensures forall i :: 0 <= i < |format| ==> names[i] == FileName(format[i], ext)
  {
    seq(|format|, i requires 0 <= i < |format| => FileName(format[i], ext))
  }

  lemma {:induction false} PlaceholderCounted(s: string)
    requires EndsWith(s, PLACEHOLDER)
    ensures Count(s, PLACEHOLDER) >= 1
    decreases |s|
  {
    if !(PLACEHOLDER <= s) {
      assert s[1..][|s| - 3..] == s[|s| - 2..];
      PlaceholderCounted(s[1..]);
    }
  }

  lemma {:induction false} ReplaceLast(s: string, ext: string)
    requires EndsWith(s, PLACEHOLDER) && Count(s, PLACEHOLDER) == 1
    ensures Replace(s, PLACEHOLDER, ext) == s[..|s| - 2] + ext
    decreases |s|
  {
    if PLACEHOLDER <= s {
      if |s| > 3 {
        assert s[2..][|s| - 4..] == s[|s| - 2..];
        PlaceholderCounted(s[2..]);
      }
      assert s[|s| - 2..][0] == s[|s| - 2];
      assert |s| == 2;
    } else {
      assert s[1..][|s| - 3..] == s[|s| - 2..];
      ReplaceLast(s[1..], ext);
      assert s[..|s| - 2] == [s[0]] + s[1..][..|s| - 3];
    }
  }

  /** A valid name resolves to its own stem followed by the extension. */
  lemma FileNameShape(name: string, ext: string)
    requires ValidName(name)
    ensures FileName(name, ext) == name[..|name| - 2] + ext
  {
    assert name[|name| - 2..] == name[|name| - 3..][1..];
    ReplaceLast(name, ext);
  }

  lemma FileNameInjective(a: string, b: string, ext: string)
    requires ValidName(a) && ValidName(b)
    requires FileName(a, ext) == FileName(b, ext)
    ensures a == b
  {
    FileNameShape(a, ext);
    FileNameShape(b, ext);
    assert |a| == |b|;
    assert a[..|a| - 2] == FileName(a, ext)[..|a| - 2] == b[..|b| - 2];
    assert a[|a| - 2..] == a[|a| - 3..][1..] == b[|b| - 3..][1..] == b[|b| - 2..];
    assert a == a[..|a| - 2] + a[|a| - 2..];
    assert b == b[..|b| - 2] + b[|b| - 2..];
  }

  /** Resolving keeps names apart, whatever extension is filled in. */
  lemma FileNamesDistinct(format: seq<string>, ext: string)
    requires Normalized(format)
    ensures Distinct(FileNames(format, ext))
  {
    forall i, j | 0 <= i < j < |format|
      ensures FileName(format[i], ext) != FileName(format[j], ext)
    {
      assert format[i] in format && format[j] in format && format[i] != format[j];
      if FileName(format[i], ext) == FileName(format[j], ext) {
        FileNameInjective(format[i], format[j], ext);
      }
    }
  }

  // ---------------------------------------------------------------- what a valid name looks like

  ghost predicate HasPlaceholder(s: string) {
    exists i :: 0 <= i < |s| - 1 && s[i] == '%' && s[i + 1] == 'l'
  }

  lemma {:induction false} CountedExactly(s: string)
    ensures Count(s, PLACEHOLDER) == 0 <==> !HasPlaceholder(s)
    decreases |s|
  {
    if |s| >= 2 {
      if PLACEHOLDER <= s {
        assert s[0] == '%' && s[0 + 1] == 'l';
      } else {
        CountedExactly(s[1..]);
        if i :| 0 <= i < |s| - 1 && s[i] == '%' && s[i + 1] == 'l' {
          assert s[..2] == [s[0], s[1]];
          assert s[1..][i - 1] == '%' && s[1..][i - 1 + 1] == 'l';
        }
        if i :| 0 <= i < |s[1..]| - 1 && s[1..][i] == '%' && s[1..][i + 1] == 'l' {
          assert s[i + 1] == '%' && s[i + 1 + 1] == 'l';
        }
      }
    }
  }

  lemma {:induction false} CountedOnce(stem: string)
    ensures Count(stem + ".%l", PLACEHOLDER) == Count(stem, PLACEHOLDER) + 1
    decreases |stem|
  {
    var s := stem + ".%l";
    if |stem| >= 2 && PLACEHOLDER <= stem {
      assert s[2..] == stem[2..] + ".%l";
      CountedOnce(stem[2..]);
    } else if |stem| >= 1 {
      assert s[1..] == stem[1..] + ".%l";
      CountedOnce(stem[1..]);
      if |stem| == 1 {
        assert s[1] == '.';
      } else {
        assert s[..2] == stem[..2];
      }
    } else {
      assert s == ".%l" && s[1..] == "%l" && s[1..][2..] == [];
      assert Count(s, PLACEHOLDER) == Count(s[1..], PLACEHOLDER);
    }
  }

  /** A stem without a placeholder of its own, in one directory, and nothing that reads as an option. */
  ghost predicate ProperStem(stem: string) {
    && !HasPlaceholder(stem)
    && '/' !in stem && '\\' !in stem && '\0' !in stem
    && (stem == [] || (stem[0] != '-' && stem[0] != '@'))
  }

  lemma StemOf(stem: string)
    ensures ValidName(stem + ".%l") <==> ProperStem(stem)
  {
    CountedOnce(stem);
    CountedExactly(stem);
    hide Count, HasPlaceholder;
    var name := stem + ".%l";
    assert name[|name| - 3..] == ".%l";
    assert forall c :: c in name <==> c in stem || c in ".%l";
    assert name[0] == if stem == [] then '.' else stem[0];
  }

  /** The valid names are a proper stem, a dot and the placeholder. */
  lemma ValidNameExactly(name: string)
    ensures ValidName(name) <==> exists stem :: name == stem + ".%l" && ProperStem(stem)
  {
    if ValidName(name) {
      var stem := name[..|name| - 3];
      assert name == stem + ".%l";
    }
    hide ValidName, ProperStem;
    forall stem | name == stem + ".%l"
      ensures ValidName(name) <==> ProperStem(stem)
    {
      StemOf(stem);
    }
  }

  /** A resolved name stays inside its directory and cannot be taken for an option or a response file. */
  lemma FileNameIsSafe(name: string, ext: string)
    requires ValidName(name) && ext in SOURCE_EXTS
    ensures var file := FileName(name, ext);
            && '/' !in file && '\\' !in file && '\0' !in file && file != "." && file != ".."
            && file != [] && file[0] != '-' && file[0] != '@' && EndsWith(file, "." + ext)
  {
    FileNameShape(name, ext);
    var file := FileName(name, ext);
    hide FileName, Count;
    assert name[|name| - 3] == '.' by {
      assert name[|name| - 3] == name[|name| - 3..][0];
    }
    assert file[|file| - (|ext| + 1)..] == "." + ext;
    assert ext[|ext| - 1] != '.' && file[|file| - 1] == ext[|ext| - 1];
  }
}
