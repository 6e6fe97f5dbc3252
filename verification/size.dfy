/** The dialog size classes: an enum whose constants carry only a type name. */
module Sizes {
  import opened Exceptions
  import Names

  datatype Size = S | M | L | XL | XXL | XXXL

  /** The constants in declaration order, as `Size.values()` lists them. */
  const Values: seq<Size> := [S, M, L, XL, XXL, XXXL]

  /** The type name each constant is declared with: its own constant name. */
  function TypeName(s: Size): string
  {
    match s
    case S => "S"
    case M => "M"
    case L => "L"
    case XL => "XL"
    case XXL => "XXL"
    case XXXL => "XXXL"
  }

  /** The first constant, in declaration order, whose type name equals `name`; None for null. */
  function FromTypeName(name: string): (r: Option<Size>)
    ensures r.Some? ==> TypeName(r.value) == name
    ensures r.None? <==> forall s: Size :: TypeName(s) != name
  {
    var r := Names.FindByName(Values, TypeName, name);
    assert r.None? ==> forall s: Size :: TypeName(s) != name by {
      ValuesComplete();
      forall s: Size ensures r.None? ==> TypeName(s) != name {
        assert s in Values;
        var i :| 0 <= i < |Values| && Values[i] == s;
      }
    }
    r
  }

  /** Every constant is listed in Values, and the type names are pairwise distinct. */
  lemma ValuesComplete()
    ensures forall s: Size :: s in Values
    ensures |Values| == 6
    ensures forall i, j :: 0 <= i < j < |Values| ==> TypeName(Values[i]) != TypeName(Values[j])
  {
    forall s: Size ensures s in Values {
      match s
      case S => assert Values[0] == s;
      case M => assert Values[1] == s;
      case L => assert Values[2] == s;
      case XL => assert Values[3] == s;
      case XXL => assert Values[4] == s;
      case XXXL => assert Values[5] == s;
    }
  }

  /** Looking up the type name of any constant gives back that constant. */
  lemma FromTypeNameRoundTrip(s: Size)
    ensures FromTypeName(TypeName(s)) == Some(s)
  {
    ValuesComplete();
    Names.FindOwnName(Values, TypeName, s);
  }
}
