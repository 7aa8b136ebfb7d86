/**
 * The field-descriptor mini-language: a command-line token such as
 * `age:number:false:18` is split on `:` and its first four pieces are
 * read positionally as name, type, required flag and default value.
 * The destructuring defaults (`type = "String"`, `required = "false"`)
 * apply only when a piece is absent, never when it is empty.
 */
module Descriptor {
  import opened Optional
  import opened Strings

  /** A parsed token; the tags keep the token's own spelling. */
  datatype Field = Field(name: string, typeTag: string, requiredTag: string, defaultValue: Option<string>)

  /** `const [name, type = "String", required = "false", defaultValue] = f.split(":")` */
  function Parse(token: string): Field
  {
    var segs := Split(token);
    Field(segs[0],
          if |segs| > 1 then segs[1] else "String",
          if |segs| > 2 then segs[2] else "false",
          if |segs| > 3 then Some(segs[3]) else None)
  }

  /** `required.toLowerCase() === "true"` */
  predicate IsRequired(f: Field)
  {
    Lower(f.requiredTag) == "true"
  }

  /** The canonical token of a descriptor: its four pieces (three without a default) joined by `:`. */
  function Format(f: Field): string
  {
    Join(":", [f.name, f.typeTag, f.requiredTag] + (if f.defaultValue.Some? then [f.defaultValue.value] else []))
  }

  predicate ColonFree(f: Field)
  {
    ':' !in f.name && ':' !in f.typeTag && ':' !in f.requiredTag
    && (f.defaultValue.Some? ==> ':' !in f.defaultValue.value)
  }

  /** Every piece of a parsed token is colon-free, the defaults included. */
  lemma ParseColonFree(token: string)
    ensures ColonFree(Parse(token))
  {
    SplitPieces(token);
  }

  /**
   * The name is the token's first piece, verbatim: the longest prefix of
   * the token without a colon.
   */
  lemma ParseName(token: string)
    ensures HasPrefix(token, Parse(token).name)
    ensures ':' !in Parse(token).name
    ensures |Parse(token).name| == |token| || token[|Parse(token).name|] == ':'
  {
    var segs := Split(token);
    JoinSplit(token);
    SplitPieces(token);
    if |segs| > 1 {
      assert token == segs[0] + ":" + Join(":", segs[1..]);
    }
  }

  /** Descriptors whose pieces contain no colon survive formatting and parsing unchanged. */
  lemma ParseFormat(f: Field)
    requires ColonFree(f)
    ensures Parse(Format(f)) == f
  {
    var segs := [f.name, f.typeTag, f.requiredTag] + (if f.defaultValue.Some? then [f.defaultValue.value] else []);
    SplitJoin(segs);
  }

  /**
   * Pieces past the fourth are ignored: a default value written with a
   * colon in it is cut at that colon.
   */
  lemma ParseTruncates(f: Field, extra: string)
    requires ColonFree(f) && f.defaultValue.Some?
    ensures Parse(Format(f) + ":" + extra) == f
  {
    var segs := [f.name, f.typeTag, f.requiredTag, f.defaultValue.value];
    SplitJoin(segs);
    SplitConcat(Format(f), extra);
    assert [f.name, f.typeTag, f.requiredTag] + [f.defaultValue.value] == segs;
    var all := Split(Format(f) + ":" + extra);
    assert all == segs + Split(extra);
    assert all[0] == segs[0] && all[1] == segs[1] && all[2] == segs[2] && all[3] == segs[3];
  }

  /** A bare name takes every default: type `String`, not required, no default value. */
  lemma ParseBareName(name: string)
    requires ':' !in name
    ensures Parse(name) == Field(name, "String", "false", None)
  {
    SplitNoColon(name);
  }

  /** A missing required piece reads as `"false"`; a missing default stays absent. */
  lemma ParseNameAndType(name: string, typeTag: string)
    requires ':' !in name && ':' !in typeTag
    ensures Parse(name + ":" + typeTag) == Field(name, typeTag, "false", None)
  {
    SplitJoin([name, typeTag]);
  }

  /** A default value is present exactly when the token has at least three colons. */
  lemma ParseDefaultPresent(token: string)
    ensures Parse(token).defaultValue.Some? <==> Colons(token) >= 3
  {
    SplitPieces(token);
  }

  /** An empty type piece stays empty: `x::true` has type `""` and is required. */
  lemma ParseEmptyType(tok: string)
    requires tok == "x" + ":" + "" + ":" + "true"
    ensures Parse(tok) == Field("x", "", "true", None)
    ensures IsRequired(Parse(tok))
  {
    SplitThree("x", "", "true");
    RequiredSpellings("true");
  }

  /** A token of four colon-free pieces reads as those four pieces. */
  lemma ParseFourPieces(a: string, b: string, c: string, d: string)
    requires ':' !in a && ':' !in b && ':' !in c && ':' !in d
    ensures Parse(a + ":" + b + ":" + c + ":" + d) == Field(a, b, c, Some(d))
  {
    SplitFour(a, b, c, d);
  }

  /** Worked tokens, one per kind of default: raw number, quoted string, required number. */
  lemma ParseAge(tok: string)
    requires tok == "age" + ":" + "number" + ":" + "false" + ":" + "18"
    ensures Parse(tok) == Field("age", "number", "false", Some("18"))
  {
    ParseFourPieces("age", "number", "false", "18");
  }

  lemma ParseColor(tok: string)
    requires tok == "color" + ":" + "string" + ":" + "false" + ":" + "red"
    ensures Parse(tok) == Field("color", "string", "false", Some("red"))
  {
    ParseFourPieces("color", "string", "false", "red");
  }

  lemma ParseCount(tok: string)
    requires tok == "count" + ":" + "number" + ":" + "true" + ":" + "0"
    ensures Parse(tok) == Field("count", "number", "true", Some("0"))
  {
    ParseFourPieces("count", "number", "true", "0");
  }

  /**
   * The required flag holds exactly for the four-letter spellings of
   * `true` in any mix of cases (`true`, `TRUE`, `True`, ...).
   */
  lemma {:induction false} RequiredSpellings(tag: string)
    ensures Lower(tag) == "true" <==>
      |tag| == 4 && forall i :: 0 <= i < 4 ==> tag[i] == "true"[i] || tag[i] == "TRUE"[i]
  {
    if |tag| == 4 {
      forall i | 0 <= i < 4
        ensures LowerChar(tag[i]) == "true"[i] <==> tag[i] == "true"[i] || tag[i] == "TRUE"[i]
      {
        LowerCharInverse(tag[i], "true"[i]);
      }
      if forall i :: 0 <= i < 4 ==> LowerChar(tag[i]) == "true"[i] {
        assert Lower(tag) == "true";
      }
    }
  }
}
