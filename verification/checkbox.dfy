/**
 * The check box form field: a fixed RTF field template with the field's
 * default value inserted, unescaped, at one place.
 */
module CheckBox {
  import opened Wrappers

  /** Everything the template writes before the default value; its spaces are part of it. */
  const Prefix: string := FieldInstruction + ResultOpen

  /** The field instruction declaring a check box form field. */
  const FieldInstruction: string :=
    @"{\field\fldpriv"
    + @"{\*\fldinst FORMCHECKBOX"
    + @"  {\*\formfield"
    + @"    {\fftype1\ffres25\fftypetxt0\ffhps20\ffdefres1}"
    + @"  }"
    + @"}"

  /** The opening of the field's result group, which holds the value. */
  const ResultOpen: string := @"{\fldrslt "

  /** Everything the template writes after the default value. */
  const Suffix: string := "}}"

  /**
   * The field's RTF: the template prefix, the default value verbatim, and
   * the two closing braces.
   */
  function Render(defaultValue: string): (r: string)
    ensures |r| == |Prefix| + |defaultValue| + 2
    ensures r[..|Prefix|] == Prefix
    ensures r[|Prefix|..|Prefix| + |defaultValue|] == defaultValue
    ensures r[|r| - 2..] == "}}"
  {
    Prefix + defaultValue + Suffix
  }

  /** Recovers the default value from a rendered field; `None` when the text is not one. */
  function DefaultValueOf(field: string): Option<string> {
    if |field| >= |Prefix| + |Suffix| && field[..|Prefix|] == Prefix && field[|field| - |Suffix|..] == Suffix
    then Some(field[|Prefix|..|field| - |Suffix|])
    else None
  }

  /** Reading the value back from a rendered field gives the value rendered. */
  lemma DefaultValueOfRender(defaultValue: string)
    ensures DefaultValueOf(Render(defaultValue)) == Some(defaultValue)
  {
  }

  /** Whatever text reads as a field with value `v` is exactly what `Render(v)` writes. */
  lemma RenderOfDefaultValue(field: string, defaultValue: string)
    requires DefaultValueOf(field) == Some(defaultValue)
    ensures Render(defaultValue) == field
  {
    assert field == field[..|Prefix|] + field[|Prefix|..|field| - |Suffix|] + field[|field| - |Suffix|..];
  }

  /** Distinct default values give distinct fields. */
  lemma RenderInjective(v1: string, v2: string)
    ensures Render(v1) == Render(v2) ==> v1 == v2
  {
    DefaultValueOfRender(v1);
    DefaultValueOfRender(v2);
  }

  /** Two fields agree on everything before their values. */
  lemma RenderPrefixShared(v1: string, v2: string)
    ensures Render(v1)[..|Prefix|] == Render(v2)[..|Prefix|]
  {
  }

  /** The field ends with the result group holding the value verbatim. */
  lemma RenderEndsWithResult(defaultValue: string)
    ensures var r := Render(defaultValue);
      var tail := @"{\fldrslt " + defaultValue + "}}";
      |r| >= |tail| && r[|r| - |tail|..] == tail
  {
    var r := Render(defaultValue);
    var tail := @"{\fldrslt " + defaultValue + "}}";
    assert tail == ResultOpen + defaultValue + Suffix;
    assert r == FieldInstruction + tail;
    assert r[|FieldInstruction|..] == tail;
  }

  /** An unchecked box, default value `0`, ends with `{\fldrslt 0}}`. */
  lemma UncheckedEnding()
    ensures var r := Render("0");
      |r| >= 13 && r[|r| - 13..] == @"{\fldrslt 0}}"
  {
    RenderEndsWithResult("0");
  }

  /** `part` is found in `text` starting at index `i`. */
  predicate OccursAt(text: string, part: string, i: int) {
    0 <= i <= |text| - |part| && text[i..i + |part|] == part
  }

  /** The value appears in the field as one contiguous piece, whatever characters it holds. */
  lemma RenderEmbedsValue(defaultValue: string)
    ensures exists i :: OccursAt(Render(defaultValue), defaultValue, i)
  {
    assert OccursAt(Render(defaultValue), defaultValue, |Prefix|);
  }
}
