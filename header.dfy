/** The class declaration line (`find_class_def_line`, `parse_class_name`,
    `parse_class_base`, `parse_class_definition`) and the test for classes that
    carry no packet (`should_skip_class`). */
module Header {
  import opened Outcomes
  import opened Text
  import opened Schema
  import opened Patterns

  /** The stripped first line containing `public class`, or None when there is none. */
  function FindClassDefLine(body: seq<string>): (r: Option<string>)
    ensures r.None? <==> forall i | 0 <= i < |body| :: !Contains(body[i], "public class")
    ensures r.Some? ==>
      exists i | 0 <= i < |body| ::
        Contains(body[i], "public class") && r.value == Strip(body[i]) &&
        forall j | 0 <= j < i :: !Contains(body[j], "public class")
  {
    FirstLine(body, line => if Contains(line, "public class") then Some(Strip(line)) else None)
  }


  /** The word right after the first `public class `. */
  function ParseClassName(line: string): (r: Result<string, ParseError>)
    ensures r.Err? <==> forall k | 0 <= k <= |line| :: ClassNameAt(line, k).None?
    ensures r.Err? ==> r.error == ClassNameNotFound(line)
    ensures r.Ok? ==> IsWord(r.value) && FirstMatch(line, ClassNameAt) == Some(r.value)
  {
    match Search(line, 0, ClassNameAt)
    case None => Err(ClassNameNotFound(line))
    case Some(f) => Ok(f.value)
  }

  /** The word after the first `implements ` or `extends ` that is followed by one. */
  function ParseClassBase(line: string): (r: Result<string, ParseError>)
    ensures r.Err? <==> forall k | 0 <= k <= |line| :: ClassBaseAt(line, k).None?
    ensures r.Err? ==> r.error == BaseClassNotFound(line)
    ensures r.Ok? ==> IsWord(r.value) && FirstMatch(line, ClassBaseAt) == Some(r.value)
  {
    match Search(line, 0, ClassBaseAt)
    case None => Err(BaseClassNotFound(line))
    case Some(f) => Ok(f.value)
  }

  /** `[class_name, class_base]` of the class declaration line. */
  function ParseClassDefinition(body: seq<string>): (r: Result<(string, string), ParseError>)
    ensures r.Ok? <==>
      FindClassDefLine(body).Some? &&
      ParseClassName(FindClassDefLine(body).value).Ok? &&
      ParseClassBase(FindClassDefLine(body).value).Ok?
    ensures FindClassDefLine(body).None? ==> r == Err(ClassLineMissing)
    ensures r.Ok? ==>
      var line := FindClassDefLine(body).value;
      r.value == (ParseClassName(line).value, ParseClassBase(line).value)
  {
    match FindClassDefLine(body)
    case None => Err(ClassLineMissing)
    case Some(line) =>
      var name :- ParseClassName(line);
      var base :- ParseClassBase(line);
      Ok((name, base))
  }

  /** The name is the whole word written after the first `public class `. */
  lemma ClassNameOf(pre: string, w: string, post: string)
    requires IsWord(w) && (post == "" || !IsWordChar(post[0]))
    requires forall j | 0 <= j < |pre| :: !LitAt(pre + "public class " + w + post, j, "public class ")
    ensures ParseClassName(pre + "public class " + w + post) == Ok(w)
  {
    var line := pre + "public class " + w + post;
    var k := |pre| + 13;
    assert LitAt(line, |pre|, "public class ") by {
      forall j | 0 <= j < 13 ensures line[|pre| + j] == "public class "[j] {
        assert line[|pre| + j] == (pre + "public class ")[|pre| + j];
      }
    }
    assert LitAt(line, k, w) by {
      forall j | 0 <= j < |w| ensures line[k + j] == w[j] {
        assert line[k + j] == (pre + "public class " + w)[k + j];
      }
    }
    assert k + |w| < |line| ==> line[k + |w|] == post[0];
    SpanOver(line, k, w, IsWordChar);
    assert line[k] == w[0];
    assert ClassNameAt(line, k) == Some(w);
    forall j | 0 <= j < k ensures ClassNameAt(line, j).None? {
      if 13 <= j {
        assert j - 13 < |pre|;
      }
    }
    FirstMatchAt(line, ClassNameAt, k);
  }

  /** The base is the whole word after the first `implements ` or `extends `. */
  lemma ClassBaseOf(pre: string, keyword: string, w: string, post: string)
    requires keyword == "implements " || keyword == "extends "
    requires IsWord(w) && (post == "" || !IsWordChar(post[0]))
    requires forall j | 0 <= j < |pre| ::
      !LitAt(pre + keyword + w + post, j, "implements ") && !LitAt(pre + keyword + w + post, j, "extends ")
    ensures ParseClassBase(pre + keyword + w + post) == Ok(w)
  {
    var line := pre + keyword + w + post;
    var k := |pre| + |keyword|;
    assert LitAt(line, |pre|, keyword) by {
      forall j | 0 <= j < |keyword| ensures line[|pre| + j] == keyword[j] {
        assert line[|pre| + j] == (pre + keyword)[|pre| + j];
      }
    }
    assert LitAt(line, k, w) by {
      forall j | 0 <= j < |w| ensures line[k + j] == w[j] {
        assert line[k + j] == (pre + keyword + w)[k + j];
      }
    }
    assert k + |w| < |line| ==> line[k + |w|] == post[0];
    SpanOver(line, k, w, IsWordChar);
    assert line[k] == w[0];
    if keyword == "extends " {
      assert !LitAt(line, |pre|, "implements ") by {
        assert line[|pre|] == keyword[0] == 'e' != "implements "[0];
      }
    }
    assert ClassBaseAt(line, |pre|) == Some(w);
    FirstMatchAt(line, ClassBaseAt, |pre|);
  }

  /** A line that marks a class without packet: a failed decompilation or the module factory. */
  predicate IsSkipMarker(line: string) {
    Contains(line, "Not decompiled") || Contains(line, "createInstance(param1:int) : IModule")
  }

  /** True exactly when some line is a skip marker. */
  function ShouldSkipClass(body: seq<string>): (r: bool)
    ensures r <==> exists i | 0 <= i < |body| :: IsSkipMarker(body[i])
  {
    if |body| == 0 then false
    else if IsSkipMarker(body[0]) then true
    else
      var r := ShouldSkipClass(body[1..]);
      assert forall i | 1 <= i < |body| :: body[1..][i - 1] == body[i];
      r
  }
}
