/** Move ordering of busca.py (`_ordenar_movimentos`): every move gets a score, and
    the list is sorted by the key `-score` with Python's `sorted`, which is stable.
    The sort is written as an insertion sort and proved to be sorted, a permutation
    and stable; those three facts determine the result, so any stable sort returns
    the same list. */
module Ordenacao {
  import opened Wrappers
  import opened Topologia
  import opened Jogo

  /** The shape `prioridade` unpacks: the jaguar's moves need a last cell, the dogs'
      moves exactly an origin and a destination. */
  predicate Ordenavel(lado: char, m: Movimento)
  {
    if lado == 'o' then |m.posicoes| >= 1 else |m.posicoes| == 2
  }

  predicate TodosOrdenaveis(lado: char, ms: seq<Movimento>)
  {
    forall m | m in ms :: Ordenavel(lado, m)
  }

  /** The score `prioridade` builds. For the jaguar: 1000 per capture, 500 more for a
      multiple capture, minus 10 per unit of Manhattan distance from the last cell to
      (4, 3). For the dogs: 50 for moving down a row, 30 for getting closer to the
      jaguar. */
  function Pontuacao(t: Tabuleiro, lado: char, m: Movimento): int
    requires Ordenavel(lado, m)
  {
    var ps := m.posicoes;
    if lado == 'o' then
      var capturas := |ps| - 1;
      var bonus := if m.tipo == 's' then 1000 * capturas + (if capturas > 1 then 500 else 0) else 0;
      var destino := ps[|ps| - 1];
      bonus - 10 * (Abs(destino.l - 4) + Abs(destino.c - 3))
    else
      var origem, destino := ps[0], ps[1];
      var avanco := if destino.l > origem.l then 50 else 0;
      var aproximacao := match PosicaoOnca(t)
        case None => 0
        case Some(o) =>
          if Abs(destino.l - o.l) + Abs(destino.c - o.c) < Abs(origem.l - o.l) + Abs(origem.c - o.c) then 30 else 0;
      avanco + aproximacao
  }

  /** The sort key `prioridade` returns: the negated score, so that `sorted` puts the
      highest scores first. */
  function Chave(t: Tabuleiro, lado: char, m: Movimento): int
    requires Ordenavel(lado, m)
  {
    -Pontuacao(t, lado, m)
  }

  /** For the jaguar on the board's cells, captures come first and longer chains before
      shorter ones: any chain outscores any step, and a chain of k hops outscores every
      chain of fewer hops. */
  lemma CapturasPrimeiro(t: Tabuleiro, a: Movimento, b: Movimento)
    requires Ordenavel('o', a) && Ordenavel('o', b)
    requires NaGrade(a.posicoes[|a.posicoes| - 1]) && NaGrade(b.posicoes[|b.posicoes| - 1])
    requires a.tipo == 's' && |a.posicoes| >= 2
    requires b.tipo != 's' || |b.posicoes| < |a.posicoes|
    ensures Pontuacao(t, 'o', a) > Pontuacao(t, 'o', b)
  {
  }

  /** A dog's score is one of 0, 30, 50 and 80: it is at least 50 exactly when the dog
      moves down, and a multiple of 30 plus 0 or 50. */
  lemma PontuacaoCachorro(t: Tabuleiro, m: Movimento)
    requires Ordenavel('c', m)
    ensures var s := Pontuacao(t, 'c', m);
      && (s == 0 || s == 30 || s == 50 || s == 80)
      && (s >= 50 <==> m.posicoes[1].l > m.posicoes[0].l)
      && (s % 50 == 30 || s == 80 ==> PosicaoOnca(t).Some?)
  {
  }

  // ---------------------------------------------------------------------------
  // The stable sort, for any key

  /** `x` placed before the first element whose key is strictly larger. */
  function Insere<T>(k: T -> int, x: T, s: seq<T>): seq<T>
  {
    if s == [] then [x]
    else if k(x) < k(s[0]) then [x] + s
    else [s[0]] + Insere(k, x, s[1..])
  }

  /** An insertion sort by `k`. */
  function OrdenarPor<T>(k: T -> int, s: seq<T>): seq<T>
  {
    if s == [] then []
    else Insere(k, s[|s| - 1], OrdenarPor(k, s[..|s| - 1]))
  }

  lemma {:induction false} InserePermuta<T>(k: T -> int, x: T, s: seq<T>)
    ensures multiset(Insere(k, x, s)) == multiset(s) + multiset{x}
    decreases |s|
  {
    if s != [] && k(x) >= k(s[0]) {
      InserePermuta(k, x, s[1..]);
      assert s == [s[0]] + s[1..];
    }
  }

  /** The sort is a permutation of its input. */
  lemma {:induction false} OrdenarPorPermuta<T>(k: T -> int, s: seq<T>)
    ensures multiset(OrdenarPor(k, s)) == multiset(s)
    decreases |s|
  {
    if s != [] {
      OrdenarPorPermuta(k, s[..|s| - 1]);
      InserePermuta(k, s[|s| - 1], OrdenarPor(k, s[..|s| - 1]));
      assert s == s[..|s| - 1] + [s[|s| - 1]];
    }
  }

  /** Keys never decrease along `s`. */
  predicate Crescente<T>(k: T -> int, s: seq<T>)
  {
    forall i, j :: 0 <= i < j < |s| ==> k(s[i]) <= k(s[j])
  }

  lemma {:induction false} InsereCrescente<T>(k: T -> int, x: T, s: seq<T>)
    requires Crescente(k, s)
    ensures Crescente(k, Insere(k, x, s))
    decreases |s|
  {
    if s != [] && k(x) >= k(s[0]) {
      var resto := Insere(k, x, s[1..]);
      InsereCrescente(k, x, s[1..]);
      InserePermuta(k, x, s[1..]);
      forall j | 0 <= j < |resto|
        ensures k(s[0]) <= k(resto[j])
      {
        assert resto[j] in multiset(resto);
        assert resto[j] == x || resto[j] in s[1..];
      }
    }
  }

  lemma {:induction false} OrdenarPorCrescente<T>(k: T -> int, s: seq<T>)
    ensures Crescente(k, OrdenarPor(k, s))
    decreases |s|
  {
    if s != [] {
      OrdenarPorCrescente(k, s[..|s| - 1]);
      InsereCrescente(k, s[|s| - 1], OrdenarPor(k, s[..|s| - 1]));
    }
  }

  /** The elements of `s` whose key is `v`, in order. */
  function ComChave<T>(k: T -> int, s: seq<T>, v: int): seq<T>
  {
    if s == [] then []
    else (if k(s[0]) == v then [s[0]] else []) + ComChave(k, s[1..], v)
  }

  lemma {:induction false} ComChaveConcat<T>(k: T -> int, a: seq<T>, b: seq<T>, v: int)
    ensures ComChave(k, a + b, v) == ComChave(k, a, v) + ComChave(k, b, v)
    decreases |a|
  {
    if a != [] {
      assert (a + b)[1..] == a[1..] + b;
      ComChaveConcat(k, a[1..], b, v);
    } else {
      assert a + b == b;
    }
  }

  lemma ComChaveCons<T>(k: T -> int, y: T, s: seq<T>, v: int)
    ensures ComChave(k, [y] + s, v) == (if k(y) == v then [y] else []) + ComChave(k, s, v)
  {
    assert ([y] + s)[0] == y && ([y] + s)[1..] == s;
  }

  lemma {:induction false} ComChaveAcima<T>(k: T -> int, s: seq<T>, v: int)
    requires forall i :: 0 <= i < |s| ==> k(s[i]) > v
    ensures ComChave(k, s, v) == []
    decreases |s|
  {
    if s != [] {
      ComChaveAcima(k, s[1..], v);
    }
  }

  lemma {:induction false} ComChaveInsere<T>(k: T -> int, x: T, s: seq<T>, v: int)
    requires Crescente(k, s)
    ensures ComChave(k, Insere(k, x, s), v) == ComChave(k, s, v) + (if k(x) == v then [x] else [])
    decreases |s|
  {
    if s == [] || k(x) < k(s[0]) {
      ComChaveCons(k, x, s, v);
      if k(x) == v {
        ComChaveAcima(k, s, v);
      }
    } else {
      ComChaveInsere(k, x, s[1..], v);
      ComChaveCons(k, s[0], Insere(k, x, s[1..]), v);
      ComChaveCons(k, s[0], s[1..], v);
      assert s == [s[0]] + s[1..];
    }
  }

  /** Stability: for every key, the elements with that key keep their input order. */
  lemma {:induction false} OrdenarPorEstavel<T>(k: T -> int, s: seq<T>, v: int)
    ensures ComChave(k, OrdenarPor(k, s), v) == ComChave(k, s, v)
    decreases |s|
  {
    if s != [] {
      var ini, x := s[..|s| - 1], s[|s| - 1];
      OrdenarPorEstavel(k, ini, v);
      OrdenarPorCrescente(k, ini);
      ComChaveInsere(k, x, OrdenarPor(k, ini), v);
      ComChaveConcat(k, ini, [x], v);
      assert s == ini + [x];
    }
  }

  lemma {:induction false} ComChaveCabeca<T>(k: T -> int, s: seq<T>, v: int)
    ensures ComChave(k, s, v) != [] <==> exists i :: 0 <= i < |s| && k(s[i]) == v
    ensures s != [] && k(s[0]) == v ==> ComChave(k, s, v)[0] == s[0]
    decreases |s|
  {
    if s != [] {
      ComChaveCabeca(k, s[1..], v);
      if exists i :: 0 <= i < |s[1..]| && k(s[1..][i]) == v {
        var i :| 0 <= i < |s[1..]| && k(s[1..][i]) == v;
        assert k(s[i + 1]) == v;
      }
      if exists i :: 0 <= i < |s| && k(s[i]) == v {
        var i :| 0 <= i < |s| && k(s[i]) == v;
        if i > 0 {
          assert k(s[1..][i - 1]) == v;
        }
      }
    }
  }

  /** Uniqueness: two lists sorted by `k` with the same elements, in the same order,
      under every key are equal. */
  lemma {:induction false} OrdenacaoUnica<T>(k: T -> int, a: seq<T>, b: seq<T>)
    requires Crescente(k, a) && Crescente(k, b)
    requires forall v :: ComChave(k, a, v) == ComChave(k, b, v)
    ensures a == b
    decreases |a|
  {
    if a == [] || b == [] {
      UmaVazia(k, a, b);
    } else {
      CabecasIguais(k, a, b);
      RestosIguais(k, a, b);
      OrdenacaoUnica(k, a[1..], b[1..]);
      assert a == [a[0]] + a[1..] && b == [b[0]] + b[1..];
    }
  }

  /** A list with the same elements under every key as the empty list is empty. */
  lemma UmaVazia<T>(k: T -> int, a: seq<T>, b: seq<T>)
    requires a == [] || b == []
    requires forall v :: ComChave(k, a, v) == ComChave(k, b, v)
    ensures a == b
  {
    if a != [] {
      ComChaveCabeca(k, a, k(a[0]));
      ComChaveCabeca(k, b, k(a[0]));
    } else if b != [] {
      ComChaveCabeca(k, a, k(b[0]));
      ComChaveCabeca(k, b, k(b[0]));
    }
  }

  /** Two sorted lists with the same elements under every key start alike: both
      start with the smallest key, and with its first element. */
  lemma CabecasIguais<T>(k: T -> int, a: seq<T>, b: seq<T>)
    requires a != [] && b != []
    requires Crescente(k, a) && Crescente(k, b)
    requires forall v :: ComChave(k, a, v) == ComChave(k, b, v)
    ensures a[0] == b[0]
  {
    var ka, kb := k(a[0]), k(b[0]);
    ComChaveCabeca(k, a, ka);
    ComChaveCabeca(k, b, ka);
    ComChaveCabeca(k, a, kb);
    ComChaveCabeca(k, b, kb);
    assert ka == kb;
  }

  /** Dropping the same first element keeps the elements under every key equal. */
  lemma RestosIguais<T>(k: T -> int, a: seq<T>, b: seq<T>)
    requires a != [] && b != [] && a[0] == b[0]
    requires forall v :: ComChave(k, a, v) == ComChave(k, b, v)
    ensures forall v :: ComChave(k, a[1..], v) == ComChave(k, b[1..], v)
  {
    forall v
      ensures ComChave(k, a[1..], v) == ComChave(k, b[1..], v)
    {
      var h := if k(a[0]) == v then [a[0]] else [];
      var ca, cb := ComChave(k, a[1..], v), ComChave(k, b[1..], v);
      assert a == [a[0]] + a[1..] && b == [b[0]] + b[1..];
      ComChaveCons(k, a[0], a[1..], v);
      ComChaveCons(k, b[0], b[1..], v);
      assert h + ca == h + cb;
      assert (h + ca)[|h|..] == ca && (h + cb)[|h|..] == cb;
    }
  }

  /** Any list sorted by `k` holding, key by key, the input's elements in their input
      order is the list `OrdenarPor` returns; so it is the list any stable sort (such
      as Python's `sorted`) returns. */
  lemma OrdenarPorCaracterizado<T>(k: T -> int, s: seq<T>, r: seq<T>)
    requires Crescente(k, r)
    requires forall v :: ComChave(k, r, v) == ComChave(k, s, v)
    ensures r == OrdenarPor(k, s)
  {
    OrdenarPorCrescente(k, s);
    forall v
      ensures ComChave(k, r, v) == ComChave(k, OrdenarPor(k, s), v)
    {
      OrdenarPorEstavel(k, s, v);
    }
    OrdenacaoUnica(k, r, OrdenarPor(k, s));
  }

  // ---------------------------------------------------------------------------
  // `_ordenar_movimentos`

  /** `prioridade` as a key function; it is only applied to moves of the shape it
      unpacks, and the value elsewhere is never used. */
  function ChaveDe(t: Tabuleiro, lado: char): Movimento -> int
  {
    m => if Ordenavel(lado, m) then Chave(t, lado, m) else 0
  }

  /** `_ordenar_movimentos(estado, lado, movimentos)`. */
  function Ordenar(t: Tabuleiro, lado: char, ms: seq<Movimento>): seq<Movimento>
  {
    OrdenarPor(ChaveDe(t, lado), ms)
  }

  /** The ordered list is a permutation of the input, its scores never increase, and
      moves of equal score keep their input order. */
  lemma OrdenarSpec(t: Tabuleiro, lado: char, ms: seq<Movimento>)
    requires TodosOrdenaveis(lado, ms)
    ensures multiset(Ordenar(t, lado, ms)) == multiset(ms)
    ensures TodosOrdenaveis(lado, Ordenar(t, lado, ms))
    ensures forall i, j :: 0 <= i < j < |Ordenar(t, lado, ms)| ==>
      Pontuacao(t, lado, Ordenar(t, lado, ms)[i]) >= Pontuacao(t, lado, Ordenar(t, lado, ms)[j])
    ensures forall v :: ComChave(ChaveDe(t, lado), Ordenar(t, lado, ms), v) == ComChave(ChaveDe(t, lado), ms, v)
  {
    var k, r := ChaveDe(t, lado), Ordenar(t, lado, ms);
    OrdenarPorPermuta(k, ms);
    forall m | m in r
      ensures Ordenavel(lado, m)
    {
      assert m in multiset(r);
    }
    OrdenarPorCrescente(k, ms);
    forall i, j | 0 <= i < j < |r|
      ensures Pontuacao(t, lado, r[i]) >= Pontuacao(t, lado, r[j])
    {
      assert r[i] in r && r[j] in r;
      assert k(r[i]) <= k(r[j]);
    }
    forall v
      ensures ComChave(k, r, v) == ComChave(k, ms, v)
    {
      OrdenarPorEstavel(k, ms, v);
    }
  }

  /** Every move the engine generates has the shape `prioridade` unpacks. */
  lemma MovimentosOrdenaveis(t: Tabuleiro, lado: char)
    ensures TodosOrdenaveis(lado, Movimentos(t, lado))
    ensures forall m | m in Movimentos(t, lado) :: BemFormado(m)
  {
    forall m | m in Movimentos(t, lado)
      ensures Ordenavel(lado, m) && BemFormado(m)
    {
      if lado == 'o' {
        MovimentosOncaSpec(t, m);
      } else {
        MovimentosCachorrosSpec(t, m);
      }
    }
  }
}
