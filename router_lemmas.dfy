/** Path matching: splitting, anchoring, captures, and the routes the application registers. */
module RoutingProperties {
  import opened Results
  import opened Text
  import opened Routing

  /** Splitting on `c` and joining with `c` gives the string back. */
  lemma {:induction false} SplitJoin(s: string, c: char)
    ensures Join(Split(s, c), [c]) == s
  {
    if s != [] {
      var rest := Split(s[1..], c);
      SplitJoin(s[1..], c);
      if s[0] == c {
        assert Join([""] + rest, [c]) == "" + [c] + Join(rest, [c]);
      } else if |rest| == 1 {
        assert Join(rest, [c]) == rest[0];
      } else {
        assert Join(rest, [c]) == rest[0] + [c] + Join(rest[1..], [c]);
        assert ([[s[0]] + rest[0]] + rest[1..])[1..] == rest[1..];
      }
    }
  }

  lemma {:induction false} CapturasSpec(ps: seq<string>, us: seq<string>)
    requires CasaSegmentos(ps, us)
    ensures |Capturas(ps, us)| == Placeholders(ps)
    ensures forall k :: 0 <= k < |Capturas(ps, us)| ==> Capturas(ps, us)[k] != "" && Capturas(ps, us)[k] in us
  {
    if ps != [] {
      assert CasaSegmentos(ps[1..], us[1..]) by {
        forall i | 0 <= i < |ps| - 1 ensures if IsPlaceholder(ps[1..][i]) then us[1..][i] != "" else us[1..][i] == ps[1..][i] {
          assert ps[1..][i] == ps[i + 1] && us[1..][i] == us[i + 1];
        }
      }
      CapturasSpec(ps[1..], us[1..]);
      var head := if IsPlaceholder(ps[0]) then [us[0]] else [];
      forall k | 0 <= k < |Capturas(ps, us)| ensures Capturas(ps, us)[k] != "" && Capturas(ps, us)[k] in us {
        if k >= |head| {
          assert Capturas(ps, us)[k] == Capturas(ps[1..], us[1..])[k - |head|];
          assert forall x :: x in us[1..] ==> x in us;
        }
      }
    }
  }

  /**
   * A match passes one parameter per placeholder, each a non-empty piece of the path with no
   * `/`: a placeholder never spans segments.
   */
  lemma ParamsSpec(pattern: string, uri: string)
    requires Casa(pattern, uri)
    ensures |Params(pattern, uri)| == Placeholders(Split(pattern, '/'))
    ensures forall k :: 0 <= k < |Params(pattern, uri)| ==> Params(pattern, uri)[k] != "" && '/' !in Params(pattern, uri)[k]
  {
    CapturasSpec(Split(pattern, '/'), Split(uri, '/'));
  }

  /** Matching is anchored: a pattern with no placeholder matches exactly its own text, and every pattern matches itself. */
  lemma CasaLiteral(pattern: string, uri: string)
    ensures Casa(pattern, pattern)
    ensures Placeholders(Split(pattern, '/')) == 0 ==> (Casa(pattern, uri) <==> uri == pattern)
  {
    var ps := Split(pattern, '/');
    if Placeholders(ps) == 0 {
      SemPlaceholders(ps);
      if Casa(pattern, uri) {
        var us := Split(uri, '/');
        assert us == ps;
        SplitJoin(pattern, '/');
        SplitJoin(uri, '/');
      }
    }
  }

  lemma {:induction false} SemPlaceholders(ps: seq<string>)
    requires Placeholders(ps) == 0
    ensures forall i :: 0 <= i < |ps| ==> !IsPlaceholder(ps[i])
  {
    if ps != [] {
      SemPlaceholders(ps[1..]);
      assert forall i :: 1 <= i < |ps| ==> ps[i] == ps[1..][i - 1];
    }
  }

  /** `/contas/{numero}/saldo` takes `/contas/12345-6/saldo` with parameter `12345-6`. */
  lemma SaldoExemplo(p: string, u: string)
    requires p == "/contas/{numero}/saldo" && u == "/contas/12345-6/saldo"
    ensures Casa(p, u) && Params(p, u) == ["12345-6"]
  {
    var ps := Split(p, '/');
    var us := Split(u, '/');
    SplitSaldo(p);
    assert u == ['/'] + ("contas" + ['/'] + ("12345-6" + ['/'] + "saldo"));
    SplitPieces("contas", "12345-6", "saldo");
    assert IsPlaceholder(ps[2]);
    assert !IsPlaceholder(ps[0]) && !IsPlaceholder(ps[1]) && !IsPlaceholder(ps[3]);
    assert CasaSegmentos(ps, us);
    var c3 := Capturas(ps[3..], us[3..]);
    assert c3 == [] by {
      assert |ps[3..]| == 1 && ps[3..][0] == ps[3];
      assert ps[3..][1..] == [] && us[3..][1..] == [];
      assert Capturas(ps[3..][1..], us[3..][1..]) == [];
    }
    var c2 := Capturas(ps[2..], us[2..]);
    assert c2 == [us[2]] + c3 by {
      assert ps[2..][0] == ps[2] && us[2..][0] == us[2];
      assert ps[2..][1..] == ps[3..] && us[2..][1..] == us[3..];
    }
    var c1 := Capturas(ps[1..], us[1..]);
    assert c1 == c2 by {
      assert ps[1..][0] == ps[1];
      assert ps[1..][1..] == ps[2..] && us[1..][1..] == us[2..];
    }
    assert Capturas(ps, us) == c1;
  }

  /** ... but not `/contas/12345-6`: the literal tail must be there. */
  lemma SaldoSemSufixo(p: string, u: string)
    requires p == "/contas/{numero}/saldo" && u == "/contas/12345-6"
    ensures !Casa(p, u)
  {
    SplitSaldo(p);
    SplitConta(u);
  }

  lemma SplitSaldo(p: string)
    requires p == "/contas/{numero}/saldo"
    ensures Split(p, '/') == ["", "contas", "{numero}", "saldo"]
  {
    var a, b, c := "contas", "{numero}", "saldo";
    assert p == ['/'] + (a + ['/'] + (b + ['/'] + c));
    SplitPieces(a, b, c);
  }

  lemma SplitConta(u: string)
    requires u == "/contas/12345-6"
    ensures |Split(u, '/')| == 3
  {
    var a, b := "contas", "12345-6";
    assert u == ['/'] + (a + ['/'] + b);
    SplitTwo(a, b);
  }

  lemma SplitTwo(a: string, b: string)
    requires '/' !in a && '/' !in b
    ensures Split(['/'] + (a + ['/'] + b), '/') == ["", a, b]
  {
    var x1 := a + ['/'] + b;
    SplitSegment(b);
    SplitCons(a, b);
    SplitCons("", x1);
    assert "" + ['/'] + x1 == ['/'] + x1;
  }

  /** A segment with no `/` splits into itself. */
  lemma {:induction false} SplitSegment(s: string)
    requires '/' !in s
    ensures Split(s, '/') == [s]
  {
    if s != [] {
      SplitSegment(s[1..]);
      assert [s[0]] + s[1..] == s;
    }
  }

  /** Splitting a segment, a separator and the rest. */
  lemma {:induction false} SplitCons(seg: string, rest: string)
    requires '/' !in seg
    ensures Split(seg + ['/'] + rest, '/') == [seg] + Split(rest, '/')
  {
    if seg == [] {
      assert seg + ['/'] + rest == ['/'] + rest;
      assert (['/'] + rest)[1..] == rest;
    } else {
      SplitCons(seg[1..], rest);
      assert (seg + ['/'] + rest)[1..] == seg[1..] + ['/'] + rest;
      assert [seg[0]] + seg[1..] == seg;
    }
  }

  lemma SplitPieces(a: string, b: string, c: string)
    requires '/' !in a && '/' !in b && '/' !in c
    ensures Split(['/'] + (a + ['/'] + (b + ['/'] + c)), '/') == ["", a, b, c]
  {
    var x2 := b + ['/'] + c;
    var x1 := a + ['/'] + x2;
    SplitSegment(c);
    SplitCons(b, c);
    SplitCons(a, x2);
    SplitCons("", x1);
    assert "" + ['/'] + x1 == ['/'] + x1;
  }
}
