/**
 * Tailwind badge colours. Both status switches (the dashboard's project status and the
 * help page's service status) return class strings built from one colour name.
 */
module Badges {

  datatype Hue = Green | Blue | Yellow | Red | Gray

  /** The Tailwind colour name of a hue. */
  function HueName(h: Hue): (n: string)
    ensures n != [] && '-' !in n
  {
    match h
    case Green => "green"
    case Blue => "blue"
    case Yellow => "yellow"
    case Red => "red"
    case Gray => "gray"
  }

  /** Different hues have different names. */
  lemma HueNameInjective(g: Hue, h: Hue)
    requires HueName(g) == HueName(h)
    ensures g == h
  {
    assert HueName(g)[0] == HueName(h)[0];
    if HueName(g)[0] == 'g' {
      assert |HueName(g)| == |HueName(h)|;
    }
  }

  /**
   * A class string that starts with the fixed `prefix`, then a colour name, then a part
   * starting with `-` determines the colour name: names contain no `-`.
   */
  lemma NameAfterPrefix(prefix: string, m: string, n: string, s: string, t: string)
    requires '-' !in m && '-' !in n && s != [] && s[0] == '-' && t != [] && t[0] == '-'
    requires prefix + m + s == prefix + n + t
    ensures m == n
  {
    var a, b := prefix + m + s, prefix + n + t;
    forall u | |prefix| <= u < |prefix| + |m| ensures a[u] != '-' {
      assert a[u] == m[u - |prefix|];
      assert m[u - |prefix|] in m;
    }
    forall u | |prefix| <= u < |prefix| + |n| ensures b[u] != '-' {
      assert b[u] == n[u - |prefix|];
      assert n[u - |prefix|] in n;
    }
    assert a[|prefix| + |m|] == '-' && b[|prefix| + |n|] == '-';
    assert |m| == |n|;
    assert a[|prefix|..|prefix| + |m|] == m;
    assert b[|prefix|..|prefix| + |n|] == n;
  }
}
