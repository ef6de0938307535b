/**
  The value tuples a multi-property projection builds from its extracted
  values. Kotlin data classes compare structurally, as Dafny datatypes do.
*/
module FlowMappers {

  datatype Mapper2<A, B> = Mapper2(a: A, b: B)
  datatype Mapper3<A, B, C> = Mapper3(a: A, b: B, c: C)
  datatype Mapper4<A, B, C, D> = Mapper4(a: A, b: B, c: C, d: D)
  datatype Mapper5<A, B, C, D, E> = Mapper5(a: A, b: B, c: C, d: D, e: E)
  datatype Mapper6<A, B, C, D, E, F> = Mapper6(a: A, b: B, c: C, d: D, e: E, f: F)
  datatype Mapper7<A, B, C, D, E, F, G> = Mapper7(a: A, b: B, c: C, d: D, e: E, f: F, g: G)

  lemma Mapper2Equality<A, B>(x: Mapper2<A, B>, y: Mapper2<A, B>)
    ensures x == y <==> x.a == y.a && x.b == y.b
  {
  }

  lemma Mapper3Equality<A, B, C>(x: Mapper3<A, B, C>, y: Mapper3<A, B, C>)
    ensures x == y <==> x.a == y.a && x.b == y.b && x.c == y.c
  {
  }

  lemma Mapper4Equality<A, B, C, D>(x: Mapper4<A, B, C, D>, y: Mapper4<A, B, C, D>)
    ensures x == y <==> x.a == y.a && x.b == y.b && x.c == y.c && x.d == y.d
  {
  }

  lemma Mapper5Equality<A, B, C, D, E>(x: Mapper5<A, B, C, D, E>, y: Mapper5<A, B, C, D, E>)
    ensures x == y <==> x.a == y.a && x.b == y.b && x.c == y.c && x.d == y.d && x.e == y.e
  {
  }

  lemma Mapper6Equality<A, B, C, D, E, F>(x: Mapper6<A, B, C, D, E, F>, y: Mapper6<A, B, C, D, E, F>)
    ensures x == y <==>
              x.a == y.a && x.b == y.b && x.c == y.c && x.d == y.d && x.e == y.e && x.f == y.f
  {
  }

  lemma Mapper7Equality<A, B, C, D, E, F, G>(x: Mapper7<A, B, C, D, E, F, G>, y: Mapper7<A, B, C, D, E, F, G>)
    ensures x == y <==>
              x.a == y.a && x.b == y.b && x.c == y.c && x.d == y.d && x.e == y.e && x.f == y.f && x.g == y.g
  {
  }

  /** Each component reads back the value it was built from, in parameter order. */
  lemma Mapper7Components<A, B, C, D, E, F, G>(va: A, vb: B, vc: C, vd: D, ve: E, vf: F, vg: G)
    ensures var m := Mapper7(va, vb, vc, vd, ve, vf, vg);
            m.a == va && m.b == vb && m.c == vc && m.d == vd && m.e == ve && m.f == vf && m.g == vg
  {
  }

  /** Replacing any one component by a different value yields a different tuple. */
  lemma Mapper7ComponentChange<A, B, C, D, E, F, G>(m: Mapper7<A, B, C, D, E, F, G>,
                                                     va: A, vb: B, vc: C, vd: D, ve: E, vf: F, vg: G)
    ensures va != m.a ==> m.(a := va) != m
    ensures vb != m.b ==> m.(b := vb) != m
    ensures vc != m.c ==> m.(c := vc) != m
    ensures vd != m.d ==> m.(d := vd) != m
    ensures ve != m.e ==> m.(e := ve) != m
    ensures vf != m.f ==> m.(f := vf) != m
    ensures vg != m.g ==> m.(g := vg) != m
  {
  }
}
