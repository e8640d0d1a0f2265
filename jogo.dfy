/** The opening layout of the dogs, row by row, and its size. */
module Abertura {
  import opened Topologia

  /** The dogs' cells at the start, row by row: rows 1-3 but the centre (3, 3). */
  const LINHA1: set<Pos> := {Pos(1, 1), Pos(1, 2), Pos(1, 3), Pos(1, 4), Pos(1, 5)}
  const LINHA2: set<Pos> := {Pos(2, 1), Pos(2, 2), Pos(2, 3), Pos(2, 4), Pos(2, 5)}
  const LINHA3: set<Pos> := {Pos(3, 1), Pos(3, 2), Pos(3, 4), Pos(3, 5)}
  const CAES_INICIAIS: set<Pos> := LINHA1 + LINHA2 + LINHA3

  lemma CaesIniciaisForma(p: Pos)
    ensures p in CAES_INICIAIS <==> NaGrade(p) && p.l <= 3 && p != Pos(3, 3)
  {
  }

  /** Three pairwise disjoint sets have the sum of their sizes. */
  lemma TamanhoUniao(a: set<Pos>, b: set<Pos>, c: set<Pos>)
    requires forall p :: p in a ==> p.l == 1
    requires forall p :: p in b ==> p.l == 2
    requires forall p :: p in c ==> p.l == 3
    ensures |a + b + c| == |a| + |b| + |c|
  {
    assert a * b == {} by {
      forall p | p in a * b ensures false { }
    }
    assert (a + b) * c == {} by {
      forall p | p in (a + b) * c ensures false { }
    }
  }

  lemma CatorzeCaes()
    ensures |CAES_INICIAIS| == 14
  {
    TamanhosLinhas();
    TamanhoUniao(LINHA1, LINHA2, LINHA3);
  }

  lemma TamanhosLinhas()
    ensures |LINHA1| == 5 && |LINHA2| == 5 && |LINHA3| == 4
  {
  }
}

/** The game state of jogo.py (`EstadoJogo`): counting, step and capture-chain
    generation, move application, terminal and winner detection, as functions over a
    board value with the lemmas that say what they produce. The class that holds the
    board and runs these rules as loops is `Estado.EstadoJogo`. */
module Jogo {
  import opened Wrappers
  import opened Topologia
  import opened Abertura

  // ---------------------------------------------------------------------------
  // Counting and positions

  /** The cells holding a dog. */
  function Cachorros(t: Tabuleiro): set<Pos>
  {
    set p | p in t && t[p] == 'c'
  }

  /** The cells holding the jaguar. */
  function Oncas(t: Tabuleiro): set<Pos>
  {
    set p | p in t && t[p] == 'o'
  }

  /** `contar_cachorros`: how many values of the board are `'c'`. */
  function ContarCachorros(t: Tabuleiro): nat
  {
    |Cachorros(t)|
  }

  /** The first of `cells` that holds `peca`. */
  function PrimeiraCom(t: Tabuleiro, cells: seq<Pos>, peca: char): (r: Option<Pos>)
    ensures r.Some? ==> r.value in cells && Tem(t, r.value, peca)
    ensures r.Some? ==> exists i :: 0 <= i < |cells| && cells[i] == r.value
                                    && forall j :: 0 <= j < i ==> !Tem(t, cells[j], peca)
    ensures r.None? ==> forall i :: 0 <= i < |cells| ==> !Tem(t, cells[i], peca)
  {
    if cells == [] then None
    else if Tem(t, cells[0], peca) then Some(cells[0])
    else PrimeiraCom(t, cells[1..], peca)
  }

  /** `posicao_onca`: the first cell, in the board's order, that holds the jaguar. */
  function PosicaoOnca(t: Tabuleiro): Option<Pos>
  {
    PrimeiraCom(t, CELULAS, 'o')
  }

  /** The cells of `cells` holding `peca`, in order. */
  function ComPeca(t: Tabuleiro, cells: seq<Pos>, peca: char): (r: seq<Pos>)
    ensures forall p :: p in r <==> p in cells && Tem(t, p, peca)
  {
    if cells == [] then []
    else ComPeca(t, cells[..|cells| - 1], peca)
         + (if Tem(t, cells[|cells| - 1], peca) then [cells[|cells| - 1]] else [])
  }

  /** `posicoes_cachorros`: the dog cells in the board's order. */
  function PosicoesCachorros(t: Tabuleiro): seq<Pos>
  {
    ComPeca(t, CELULAS, 'c')
  }

  // ---------------------------------------------------------------------------
  // Steps

  /** The parity filter of both step generators: from a cell whose row plus column is
      odd only a step of (row distance + column distance) at most 1 is allowed. */
  predicate ParidadePermite(o: Pos, d: Pos)
  {
    !((o.l + o.c) % 2 != 0 && Abs(o.l - d.l) + Abs(o.c - d.c) > 1)
  }

  /** A step the generators accept: a listed neighbour, empty, through the parity filter. */
  predicate PassoLegal(t: Tabuleiro, o: Pos, d: Pos)
  {
    d in Vizinhos(o) && Tem(t, d, '-') && ParidadePermite(o, d)
  }

  /** The inner loop of both step generators over the neighbours `viz` of `o`. */
  function PassosDe(t: Tabuleiro, o: Pos, viz: seq<Pos>): seq<Movimento>
  {
    if viz == [] then []
    else
      var v := viz[|viz| - 1];
      PassosDe(t, o, viz[..|viz| - 1])
      + (if Tem(t, v, '-') && ParidadePermite(o, v) then [Movimento('m', [o, v])] else [])
  }

  /** The outer loop of `_gerar_movimentos_cachorros` over the dog cells `origens`. */
  function PassosCachorros(t: Tabuleiro, origens: seq<Pos>): seq<Movimento>
  {
    if origens == [] then []
    else
      var o := origens[|origens| - 1];
      PassosCachorros(t, origens[..|origens| - 1]) + PassosDe(t, o, Vizinhos(o))
  }

  /** `_gerar_movimentos_cachorros`. */
  function MovimentosCachorros(t: Tabuleiro): seq<Movimento>
  {
    PassosCachorros(t, PosicoesCachorros(t))
  }

  // ---------------------------------------------------------------------------
  // Captures

  /** The landing cell of a jump from `o` over its neighbour `v`: `(lv + dl, cv + dc)`. */
  function Destino(o: Pos, v: Pos): Pos
  {
    Pos(2 * v.l - o.l, 2 * v.c - o.c)
  }

  /** The jumped cell of a hop, as `aplicar_movimento` computes it (floor division). */
  function Meio(a: Pos, b: Pos): Pos
  {
    Pos((a.l + b.l) / 2, (a.c + b.c) / 2)
  }

  /** `_salto_valido`: the geometric rule for one hop from `o` over `m` to `d`. */
  predicate SaltoValido(o: Pos, m: Pos, d: Pos)
  {
    if m.l != (o.l + d.l) / 2 || m.c != (o.c + d.c) / 2 then false
    else
      var distl, distc := Abs(d.l - o.l), Abs(d.c - o.c);
      if o.l == 7 && d.l == 7 then distc == 4 && distl == 0
      else if distl == 2 && distc == 2 then
        if (o.l + o.c) % 2 != 0 then false
        else if o.l == 5 && d.l == 7 && o.c != 3 then false
        else if o.l == 6 && d.l == 4 && ((o.c == 2 && d.c != 4) || (o.c == 4 && d.c != 2)) then false
        else if d.l == 7 && d.c != 3 then false
        else true
      else false
  }

  /** `_gerar_saltos_recursivos(pos, capt, caminho)` restricted to the neighbours `viz`
      (a prefix of the neighbour list, as the loop has visited it so far). */
  function Saltos(t: Tabuleiro, pos: Pos, capt: set<Pos>, caminho: seq<Pos>, viz: seq<Pos>): seq<Movimento>
    decreases Cachorros(t) - capt, |viz|
  {
    if viz == [] then []
    else Saltos(t, pos, capt, caminho, viz[..|viz| - 1]) + SaltosVia(t, pos, capt, caminho, viz[|viz| - 1])
  }

  /** One turn of that loop: the jump over `v`, if legal, and every chain continuing it. */
  function SaltosVia(t: Tabuleiro, pos: Pos, capt: set<Pos>, caminho: seq<Pos>, v: Pos): seq<Movimento>
    decreases Cachorros(t) - capt, 0
  {
    var d := Destino(pos, v);
    if !Tem(t, v, 'c') || v in capt || !EhCelula(d) || !Tem(t, d, '-') || !SaltoValido(pos, v, d) then []
    else
      var novo := caminho + [d];
      assert Cachorros(t) - (capt + {v}) < Cachorros(t) - capt by {
        assert v in Cachorros(t) - capt;
      }
      [Movimento('s', novo)] + Saltos(t, d, capt + {v}, novo, Vizinhos(d))
  }

  /** `_gerar_movimentos_onca`: the jaguar's steps, then its capture chains. */
  function MovimentosOnca(t: Tabuleiro): seq<Movimento>
  {
    match PosicaoOnca(t)
    case None => []
    case Some(p) => PassosDe(t, p, Vizinhos(p)) + Saltos(t, p, {}, [p], Vizinhos(p))
  }

  /** `gerar_movimentos(lado)`. */
  function Movimentos(t: Tabuleiro, lado: char): seq<Movimento>
  {
    if lado == 'o' then MovimentosOnca(t) else MovimentosCachorros(t)
  }

  // ---------------------------------------------------------------------------
  // Move application, terminal states

  /** A move `aplicar_movimento` can take apart without raising. */
  predicate BemFormado(m: Movimento)
  {
    && (m.tipo == 'm' ==> |m.posicoes| == 2)
    && (m.tipo == 's' ==> |m.posicoes| >= 1)
  }

  /** Hops 1 .. n-1 of the midpoint loop of `aplicar_movimento`: each jumped cell
      becomes `'-'`. */
  function ApagarMeios(t: Tabuleiro, ps: seq<Pos>, n: nat): Tabuleiro
    requires n <= |ps|
  {
    if n <= 1 then t else ApagarMeios(t, ps, n - 1)[Meio(ps[n - 2], ps[n - 1]) := '-']
  }

  /** The board `aplicar_movimento(lado, m)` returns. */
  function Aplicar(t: Tabuleiro, lado: char, m: Movimento): Tabuleiro
    requires BemFormado(m)
  {
    var ps := m.posicoes;
    if m.tipo == 'm' then t[ps[0] := '-'][ps[1] := lado]
    else if m.tipo == 's' then ApagarMeios(t[ps[0] := '-'], ps, |ps|)[ps[|ps| - 1] := 'o']
    else t
  }

  /** `vencedor`: the jaguar wins with at most nine dogs left, the dogs win when the
      jaguar has no move. */
  function Vencedor(t: Tabuleiro): Option<char>
  {
    if ContarCachorros(t) <= 9 then Some('o')
    else if MovimentosOnca(t) == [] then Some('c')
    else None
  }

  /** `eh_terminal`. */
  predicate EhTerminal(t: Tabuleiro)
  {
    ContarCachorros(t) <= 9 || MovimentosOnca(t) == []
  }

  /** The board `_tabuleiro_inicial` builds: dogs on rows 1-3, the jaguar on (3, 3),
      every other cell empty. */
  function TabuleiroInicial(): Tabuleiro
  {
    map p | p in ADJACENCIAS :: if p == Pos(3, 3) then 'o' else if p.l <= 3 then 'c' else '-'
  }

  // ---------------------------------------------------------------------------
  // Jump geometry

  /** `_salto_valido` holds in exactly two cases: the lateral jump along row 7 over
      four columns, and a 2x2 diagonal jump from an even cell that none of the apex
      exceptions forbids. In particular every orthogonal jump outside row 7 fails. */
  lemma SaltoValidoCasos(o: Pos, m: Pos, d: Pos)
    ensures SaltoValido(o, m, d) <==>
      && m == Meio(o, d)
      && (|| (o.l == 7 && d.l == 7 && Abs(d.c - o.c) == 4)
          || (&& !(o.l == 7 && d.l == 7)
              && Abs(d.l - o.l) == 2 && Abs(d.c - o.c) == 2
              && (o.l + o.c) % 2 == 0
              && (o.l == 5 && d.l == 7 ==> o.c == 3)
              && (o.l == 6 && d.l == 4 && o.c == 2 ==> d.c == 4)
              && (o.l == 6 && d.l == 4 && o.c == 4 ==> d.c == 2)
              && (d.l == 7 ==> d.c == 3)))
    ensures (o.l == d.l || o.c == d.c) && !(o.l == 7 && d.l == 7) ==> !SaltoValido(o, m, d)
  {
  }

  // ---------------------------------------------------------------------------
  // What the step generators produce

  lemma {:induction false} PassosDeSpec(t: Tabuleiro, o: Pos, viz: seq<Pos>, m: Movimento)
    ensures m in PassosDe(t, o, viz) <==>
      && m.tipo == 'm' && |m.posicoes| == 2 && m.posicoes[0] == o
      && m.posicoes[1] in viz && Tem(t, m.posicoes[1], '-') && ParidadePermite(o, m.posicoes[1])
  {
    if viz != [] {
      var v, front := viz[|viz| - 1], viz[..|viz| - 1];
      PassosDeSpec(t, o, front, m);
      assert viz == front + [v];
      if m.tipo == 'm' && |m.posicoes| == 2 && m.posicoes[0] == o && m.posicoes[1] == v {
        assert m.posicoes == [o, v];
      }
    }
  }

  lemma PassosCachorrosUltimo(t: Tabuleiro, front: seq<Pos>, o: Pos, m: Movimento)
    ensures m in PassosCachorros(t, front + [o]) <==>
      m in PassosCachorros(t, front) || m in PassosDe(t, o, Vizinhos(o))
  {
    assert (front + [o])[..|front|] == front;
  }

  lemma {:induction false} PassosCachorrosSpec(t: Tabuleiro, origens: seq<Pos>, m: Movimento)
    ensures m in PassosCachorros(t, origens) <==>
      && m.tipo == 'm' && |m.posicoes| == 2 && m.posicoes[0] in origens
      && PassoLegal(t, m.posicoes[0], m.posicoes[1])
  {
    if origens != [] {
      var o, front := origens[|origens| - 1], origens[..|origens| - 1];
      assert origens == front + [o];
      PassosCachorrosSpec(t, front, m);
      PassosDeSpec(t, o, Vizinhos(o), m);
      PassosCachorrosUltimo(t, front, o, m);
    }
  }

  /** The dogs' moves are exactly the steps from a dog cell to an empty listed
      neighbour that pass the parity filter. */
  lemma MovimentosCachorrosSpec(t: Tabuleiro, m: Movimento)
    ensures m in MovimentosCachorros(t) <==>
      && m.tipo == 'm' && |m.posicoes| == 2
      && EhCelula(m.posicoes[0]) && Tem(t, m.posicoes[0], 'c')
      && PassoLegal(t, m.posicoes[0], m.posicoes[1])
  {
    PassosCachorrosSpec(t, PosicoesCachorros(t), m);
    if |m.posicoes| == 2 {
      ListaDasCelulas(m.posicoes[0]);
    }
  }

  // ---------------------------------------------------------------------------
  // What the capture generator produces

  /** The cell jumped by hop `j` of the path `ps` (from `ps[j - 1]` to `ps[j]`). */
  function MeioDe(ps: seq<Pos>, j: int): Pos
    requires 1 <= j < |ps|
  {
    Meio(ps[j - 1], ps[j])
  }

  /** One hop from `a` to `b` that the capture generator accepts, on the board it
      started from: the jumped cell is a listed neighbour of `a` holding a dog, `b`
      lies straight beyond it, is an empty cell, and `_salto_valido` holds. */
  predicate SaltoLegal(t: Tabuleiro, a: Pos, b: Pos)
  {
    var v := Meio(a, b);
    && v in Vizinhos(a) && b == Destino(a, v) && Tem(t, v, 'c')
    && EhCelula(b) && Tem(t, b, '-') && SaltoValido(a, v, b)
  }

  predicate SaltoLegalEm(t: Tabuleiro, ps: seq<Pos>, j: int)
    requires 1 <= j < |ps|
  {
    SaltoLegal(t, ps[j - 1], ps[j])
  }

  /** Hops `k .. |ps| - 1` of the path `ps` are legal hops on `t`, their jumped cells
      are pairwise distinct and none of them is in `capt`. */
  predicate SaltosDesde(t: Tabuleiro, ps: seq<Pos>, k: int, capt: set<Pos>)
    requires 1 <= k <= |ps|
  {
    && (forall j :: k <= j < |ps| ==> SaltoLegalEm(t, ps, j) && MeioDe(ps, j) !in capt)
    && (forall i, j :: k <= i < j < |ps| ==> MeioDe(ps, i) != MeioDe(ps, j))
  }

  /** A capture chain `('s', ps)` as the jaguar may play it from `ps[0]`: at least
      one hop, every hop legal, no dog jumped twice. */
  predicate CadeiaDeSaltos(t: Tabuleiro, ps: seq<Pos>)
  {
    |ps| >= 2 && SaltosDesde(t, ps, 1, {})
  }

  /** Jumping over `v` from `pos` lands beyond `v`, so `v` is the midpoint again. */
  lemma MeioDestino(pos: Pos, v: Pos)
    ensures Meio(pos, Destino(pos, v)) == v
  {
  }

  /** Peeling the first hop `k` off `SaltosDesde`. */
  lemma SaltosDesdePrimeiro(t: Tabuleiro, ps: seq<Pos>, k: int, capt: set<Pos>)
    requires 1 <= k < |ps|
    ensures SaltosDesde(t, ps, k, capt) <==>
      && SaltoLegalEm(t, ps, k) && MeioDe(ps, k) !in capt
      && SaltosDesde(t, ps, k + 1, capt + {MeioDe(ps, k)})
  {
    var v := MeioDe(ps, k);
    if SaltosDesde(t, ps, k, capt) {
      forall j | k + 1 <= j < |ps|
        ensures MeioDe(ps, j) !in capt + {v}
      {
        assert MeioDe(ps, k) != MeioDe(ps, j);
      }
    }
    if SaltoLegalEm(t, ps, k) && v !in capt && SaltosDesde(t, ps, k + 1, capt + {v}) {
      forall i, j | k <= i < j < |ps|
        ensures MeioDe(ps, i) != MeioDe(ps, j)
      {
        if i == k {
          assert MeioDe(ps, j) !in capt + {v};
        }
      }
    }
  }

  /** `Saltos(pos, capt, caminho, viz)` lists exactly the paths that extend `caminho`
      (which ends on `pos`) by at least one hop, whose first new hop jumps a cell of
      `viz`, and whose new hops are legal, jump distinct dogs, none of them in `capt`. */
  lemma {:induction false} SaltosSpec(t: Tabuleiro, pos: Pos, capt: set<Pos>, caminho: seq<Pos>,
                                      viz: seq<Pos>, m: Movimento)
    requires |caminho| >= 1 && caminho[|caminho| - 1] == pos
    requires forall v :: v in viz ==> v in Vizinhos(pos)
    ensures m in Saltos(t, pos, capt, caminho, viz) <==>
      && m.tipo == 's' && |caminho| < |m.posicoes| && m.posicoes[..|caminho|] == caminho
      && MeioDe(m.posicoes, |caminho|) in viz && SaltosDesde(t, m.posicoes, |caminho|, capt)
    decreases Cachorros(t) - capt, |viz|, 2
  {
    if viz != [] {
      var v, front := viz[|viz| - 1], viz[..|viz| - 1];
      SaltosSpec(t, pos, capt, caminho, front, m);
      SaltosViaSpec(t, pos, capt, caminho, v, m);
      assert viz == front + [v];
    }
  }

  /** One turn of the loop: the paths whose first new hop jumps `v`. */
  lemma {:induction false} SaltosViaSpec(t: Tabuleiro, pos: Pos, capt: set<Pos>, caminho: seq<Pos>,
                                         v: Pos, m: Movimento)
    requires |caminho| >= 1 && caminho[|caminho| - 1] == pos
    requires v in Vizinhos(pos)
    ensures m in SaltosVia(t, pos, capt, caminho, v) <==>
      && m.tipo == 's' && |caminho| < |m.posicoes| && m.posicoes[..|caminho|] == caminho
      && MeioDe(m.posicoes, |caminho|) == v && SaltosDesde(t, m.posicoes, |caminho|, capt)
    decreases Cachorros(t) - capt, 0, 1
  {
    var d := Destino(pos, v);
    if Tem(t, v, 'c') && v !in capt && EhCelula(d) && Tem(t, d, '-') && SaltoValido(pos, v, d) {
      SaltosViaLegal(t, pos, capt, caminho, v, m);
    } else if m.tipo == 's' && |caminho| < |m.posicoes| && m.posicoes[..|caminho|] == caminho
              && MeioDe(m.posicoes, |caminho|) == v && SaltosDesde(t, m.posicoes, |caminho|, capt) {
      PrimeiroSalto(t, pos, capt, caminho, v, m);
    }
  }

  /** The loop turn when the jump over `v` is legal: that jump, then every chain from
      where it lands. */
  lemma {:induction false} SaltosViaLegal(t: Tabuleiro, pos: Pos, capt: set<Pos>, caminho: seq<Pos>,
                                          v: Pos, m: Movimento)
    requires |caminho| >= 1 && caminho[|caminho| - 1] == pos
    requires v in Vizinhos(pos)
    requires var d := Destino(pos, v);
      Tem(t, v, 'c') && v !in capt && EhCelula(d) && Tem(t, d, '-') && SaltoValido(pos, v, d)
    ensures m in SaltosVia(t, pos, capt, caminho, v) <==>
      && m.tipo == 's' && |caminho| < |m.posicoes| && m.posicoes[..|caminho|] == caminho
      && MeioDe(m.posicoes, |caminho|) == v && SaltosDesde(t, m.posicoes, |caminho|, capt)
    decreases Cachorros(t) - capt, 0, 0
  {
    var d := Destino(pos, v);
    var novo := caminho + [d];
    if m.tipo == 's' && |caminho| < |m.posicoes| && m.posicoes[..|caminho|] == caminho
       && MeioDe(m.posicoes, |caminho|) == v && SaltosDesde(t, m.posicoes, |caminho|, capt) {
      PrimeiroSalto(t, pos, capt, caminho, v, m);
      Continuacao(t, capt + {v}, novo, m);
    }
    assert v in Cachorros(t) - capt;
    assert Cachorros(t) - (capt + {v}) < Cachorros(t) - capt;
    SaltosSpec(t, d, capt + {v}, novo, Vizinhos(d), m);
    assert SaltosVia(t, pos, capt, caminho, v)
        == [Movimento('s', novo)] + Saltos(t, d, capt + {v}, novo, Vizinhos(d));
    if m in SaltosVia(t, pos, capt, caminho, v) {
      SaltoEstendido(t, pos, capt, caminho, v, m);
    }
  }

  /** A path that extends `caminho` by a first hop over `v` and then by legal hops
      starts with the legal jump over `v`, and its later hops jump neither `v` nor a
      cell of `capt`. */
  lemma PrimeiroSalto(t: Tabuleiro, pos: Pos, capt: set<Pos>, caminho: seq<Pos>, v: Pos, m: Movimento)
    requires |caminho| >= 1 && caminho[|caminho| - 1] == pos
    requires m.tipo == 's' && |caminho| < |m.posicoes| && m.posicoes[..|caminho|] == caminho
    requires MeioDe(m.posicoes, |caminho|) == v && SaltosDesde(t, m.posicoes, |caminho|, capt)
    ensures var d, k, ps := Destino(pos, v), |caminho|, m.posicoes;
      && ps[k] == d && ps[..k + 1] == caminho + [d]
      && Tem(t, v, 'c') && v !in capt && EhCelula(d) && Tem(t, d, '-') && SaltoValido(pos, v, d)
      && SaltosDesde(t, ps, k + 1, capt + {v})
  {
    var k, ps := |caminho|, m.posicoes;
    assert ps[k - 1] == pos by { assert ps[..k][k - 1] == ps[k - 1]; }
    SaltosDesdePrimeiro(t, ps, k, capt);
    assert SaltoLegalEm(t, ps, k);
    assert ps[..k + 1] == ps[..k] + [ps[k]];
  }

  /** What follows the first jump of such a path: nothing, and the path is that jump,
      or a hop over a neighbour of the landing cell. */
  lemma Continuacao(t: Tabuleiro, capt: set<Pos>, novo: seq<Pos>, m: Movimento)
    requires m.tipo == 's' && |novo| <= |m.posicoes| && m.posicoes[..|novo|] == novo && |novo| >= 1
    requires SaltosDesde(t, m.posicoes, |novo|, capt)
    ensures |m.posicoes| == |novo| ==> m == Movimento('s', novo)
    ensures |m.posicoes| > |novo| ==> MeioDe(m.posicoes, |novo|) in Vizinhos(novo[|novo| - 1])
  {
    var ps := m.posicoes;
    if |ps| > |novo| {
      assert SaltoLegalEm(t, ps, |novo|);
      assert ps[|novo| - 1] == novo[|novo| - 1];
    } else {
      assert ps == ps[..|novo|];
    }
  }

  /** Conversely, the jump over `v` itself, or it followed by a chain from where it
      lands, is a path extending `caminho` whose first new hop jumps `v`. */
  lemma SaltoEstendido(t: Tabuleiro, pos: Pos, capt: set<Pos>, caminho: seq<Pos>, v: Pos, m: Movimento)
    requires |caminho| >= 1 && caminho[|caminho| - 1] == pos && v in Vizinhos(pos)
    requires var d := Destino(pos, v);
      Tem(t, v, 'c') && v !in capt && EhCelula(d) && Tem(t, d, '-') && SaltoValido(pos, v, d)
    requires var novo, ps := caminho + [Destino(pos, v)], m.posicoes;
      || m == Movimento('s', novo)
      || (m.tipo == 's' && |novo| < |ps| && ps[..|novo|] == novo && SaltosDesde(t, ps, |novo|, capt + {v}))
    ensures var k, ps := |caminho|, m.posicoes;
      && m.tipo == 's' && k < |ps| && ps[..k] == caminho
      && MeioDe(ps, k) == v && SaltosDesde(t, ps, k, capt)
  {
    var d, k, ps := Destino(pos, v), |caminho|, m.posicoes;
    var novo := caminho + [d];
    assert k < |ps| && ps[..k + 1] == novo by {
      if m == Movimento('s', novo) {
        assert ps == novo;
      }
    }
    assert ps[..k] == caminho by {
      assert ps[..k] == ps[..k + 1][..k];
    }
    assert ps[k - 1] == pos && ps[k] == d by {
      assert ps[..k + 1][k - 1] == ps[k - 1] && ps[..k + 1][k] == ps[k];
    }
    assert MeioDe(ps, k) == v by {
      MeioDestino(pos, v);
    }
    assert SaltoLegalEm(t, ps, k);
    assert SaltosDesde(t, ps, k + 1, capt + {v}) by {
      if m == Movimento('s', novo) {
        assert k + 1 == |ps|;
      }
    }
    SaltosDesdePrimeiro(t, ps, k, capt);
  }

  /** The jaguar's moves are exactly its legal steps and its capture chains, all from
      the cell `posicao_onca` reports; with no jaguar on the board there is none. */
  lemma MovimentosOncaSpec(t: Tabuleiro, m: Movimento)
    ensures m in MovimentosOnca(t) <==>
      && PosicaoOnca(t).Some?
      && var p, ps := PosicaoOnca(t).value, m.posicoes;
         || (m.tipo == 'm' && |ps| == 2 && ps[0] == p && PassoLegal(t, p, ps[1]))
         || (m.tipo == 's' && CadeiaDeSaltos(t, ps) && ps[0] == p)
  {
    if PosicaoOnca(t).Some? {
      var p, ps := PosicaoOnca(t).value, m.posicoes;
      PassosDeSpec(t, p, Vizinhos(p), m);
      SaltosSpec(t, p, {}, [p], Vizinhos(p), m);
      if |ps| >= 2 && ps[0] == p {
        assert ps[..1] == [p];
        if SaltosDesde(t, ps, 1, {}) {
          assert SaltoLegalEm(t, ps, 1);
        }
      }
    }
  }

  /**
   * Every generated capture chain is generated together with each of its
   * prefixes of two or more cells: the search records the chain reached so
   * far before it tries to extend it.
   */
  lemma PrefixoGerado(t: Tabuleiro, m: Movimento, n: int)
    requires m in MovimentosOnca(t) && m.tipo == 's' && 2 <= n < |m.posicoes|
    ensures Movimento('s', m.posicoes[..n]) in MovimentosOnca(t)
  {
    MovimentosOncaSpec(t, m);
    var ps := m.posicoes;
    var qs := ps[..n];
    forall j | 1 <= j < |qs|
      ensures SaltoLegalEm(t, qs, j) && MeioDe(qs, j) !in {}
    {
      assert SaltoLegalEm(t, ps, j);
    }
    forall i, j | 1 <= i < j < |qs|
      ensures MeioDe(qs, i) != MeioDe(qs, j)
    {
      assert MeioDe(ps, i) != MeioDe(ps, j);
    }
    assert CadeiaDeSaltos(t, qs);
    MovimentosOncaSpec(t, Movimento('s', qs));
  }

  // ---------------------------------------------------------------------------
  // What a capture chain takes off the board

  /** The cells jumped by hops `1 .. n - 1` of `ps`. */
  function MeiosAte(ps: seq<Pos>, n: int): set<Pos>
    requires 1 <= n <= |ps|
  {
    set j | 1 <= j < n :: MeioDe(ps, j)
  }

  /** The dogs a chain `ps` captures. */
  function Capturados(ps: seq<Pos>): set<Pos>
    requires |ps| >= 1
  {
    MeiosAte(ps, |ps|)
  }

  lemma MeiosAteProximo(ps: seq<Pos>, n: int)
    requires 1 <= n < |ps|
    ensures MeiosAte(ps, n + 1) == MeiosAte(ps, n) + {MeioDe(ps, n)}
  {
  }

  /** With pairwise distinct jumped cells, hops `1 .. n - 1` capture `n - 1` dogs. */
  lemma {:induction false} TamanhoMeiosAte(t: Tabuleiro, ps: seq<Pos>, n: int, capt: set<Pos>)
    requires 1 <= n <= |ps| && SaltosDesde(t, ps, 1, capt)
    ensures |MeiosAte(ps, n)| == n - 1
  {
    if n > 1 {
      TamanhoMeiosAte(t, ps, n - 1, capt);
      MeiosAteProximo(ps, n - 1);
      assert MeioDe(ps, n - 1) !in MeiosAte(ps, n - 1);
    }
  }

  /** The midpoint loop of `aplicar_movimento` blanks exactly the jumped cells. */
  lemma {:induction false} ApagarMeiosSpec(t: Tabuleiro, ps: seq<Pos>, n: int)
    requires 1 <= n <= |ps|
    ensures forall p :: p in ApagarMeios(t, ps, n) <==> p in t || p in MeiosAte(ps, n)
    ensures forall p :: p in ApagarMeios(t, ps, n) ==>
      ApagarMeios(t, ps, n)[p] == if p in MeiosAte(ps, n) then '-' else t[p]
  {
    if n > 1 {
      ApagarMeiosSpec(t, ps, n - 1);
      MeiosAteProximo(ps, n - 1);
    }
  }

  /** A chain jumps only dogs, all different, so it captures as many dogs as it has
      hops; in particular it has at most as many hops as there are dogs. */
  lemma CadeiaCaptura(t: Tabuleiro, ps: seq<Pos>)
    requires CadeiaDeSaltos(t, ps)
    ensures Capturados(ps) <= Cachorros(t)
    ensures |Capturados(ps)| == |ps| - 1
    ensures |ps| - 1 <= ContarCachorros(t)
  {
    TamanhoMeiosAte(t, ps, |ps|, {});
    CapturadosSaoCaes(t, ps);
    SetSizeMonotone(Capturados(ps), Cachorros(t));
  }

  /** Every cell a chain jumps holds a dog. */
  lemma CapturadosSaoCaes(t: Tabuleiro, ps: seq<Pos>)
    requires CadeiaDeSaltos(t, ps)
    ensures Capturados(ps) <= Cachorros(t)
  {
    forall v | v in Capturados(ps)
      ensures v in Cachorros(t)
    {
      var j :| 1 <= j < |ps| && v == MeioDe(ps, j);
      assert SaltoLegalEm(t, ps, j);
    }
  }

  lemma SetSizeMonotone<T>(a: set<T>, b: set<T>)
    requires a <= b
    ensures |a| <= |b|
  {
    assert b == a + (b - a);
  }

  /** `r` is `t` after the jaguar went from `o` to the empty cell `d` and the dogs
      on `k` were removed: `o` and every cell of `k` are empty, `d` holds the jaguar,
      and every other cell is as it was. */
  predicate CapturaDe(t: Tabuleiro, r: Tabuleiro, o: Pos, d: Pos, k: set<Pos>)
  {
    && Tem(t, o, 'o') && Tem(t, d, '-') && k <= Cachorros(t)
    && r.Keys == t.Keys && r[o] == '-' && r[d] == 'o'
    && (forall p :: p in k ==> p in r && r[p] == '-')
    && (forall p :: p in t && p !in k && p != o && p != d ==> r[p] == t[p])
  }

  /** Applying a capture chain from the jaguar's cell: the start is emptied, every
      jumped dog is removed, the jaguar stands on the last landing cell and nothing
      else changes; the dog count drops by the number of hops. */
  lemma AplicarCadeia(t: Tabuleiro, m: Movimento)
    requires m.tipo == 's' && CadeiaDeSaltos(t, m.posicoes) && Tem(t, m.posicoes[0], 'o')
    ensures BemFormado(m)
    ensures var r, ps := Aplicar(t, 'o', m), m.posicoes;
      && CapturaDe(t, r, ps[0], ps[|ps| - 1], Capturados(ps))
      && ContarCachorros(r) == ContarCachorros(t) - (|ps| - 1)
      && Oncas(r) == Oncas(t) - {ps[0]} + {ps[|ps| - 1]}
  {
    var ps := m.posicoes;
    var r := Aplicar(t, 'o', m);
    assert CapturaDe(t, r, ps[0], ps[|ps| - 1], Capturados(ps)) by {
      AplicarCadeiaCelulas(t, m);
    }
    assert Oncas(r) == Oncas(t) - {ps[0]} + {ps[|ps| - 1]} by {
      OncasApos(t, r, ps[0], ps[|ps| - 1], Capturados(ps));
    }
    assert ContarCachorros(r) == ContarCachorros(t) - (|ps| - 1) by {
      ContagemAposCadeia(t, m);
    }
  }

  /** A capture chain removes exactly the dogs it jumps. */
  lemma CachorrosAposCadeia(t: Tabuleiro, m: Movimento)
    requires m.tipo == 's' && CadeiaDeSaltos(t, m.posicoes) && Tem(t, m.posicoes[0], 'o')
    ensures BemFormado(m)
    ensures Cachorros(Aplicar(t, 'o', m)) == Cachorros(t) - Capturados(m.posicoes)
  {
    var ps := m.posicoes;
    AplicarCadeiaCelulas(t, m);
    CachorrosApos(t, Aplicar(t, 'o', m), ps[0], ps[|ps| - 1], Capturados(ps));
  }

  lemma ContagemAposCadeia(t: Tabuleiro, m: Movimento)
    requires m.tipo == 's' && CadeiaDeSaltos(t, m.posicoes) && Tem(t, m.posicoes[0], 'o')
    ensures BemFormado(m)
    ensures ContarCachorros(Aplicar(t, 'o', m)) == ContarCachorros(t) - (|m.posicoes| - 1)
  {
    CachorrosAposCadeia(t, m);
    CadeiaCaptura(t, m.posicoes);
    TamanhoDiferenca(Cachorros(t), Capturados(m.posicoes));
  }

  /** The cells a capture chain writes, one by one. */
  lemma AplicarCadeiaCelulas(t: Tabuleiro, m: Movimento)
    requires m.tipo == 's' && CadeiaDeSaltos(t, m.posicoes) && Tem(t, m.posicoes[0], 'o')
    ensures BemFormado(m)
    ensures var ps := m.posicoes; CapturaDe(t, Aplicar(t, 'o', m), ps[0], ps[|ps| - 1], Capturados(ps))
  {
    var ps := m.posicoes;
    var n := |ps|;
    var o, d, k := ps[0], ps[n - 1], Capturados(ps);
    var apagado := ApagarMeios(t[o := '-'], ps, n);
    CadeiaCaptura(t, ps);
    ApagarMeiosSpec(t[o := '-'], ps, n);
    assert SaltoLegalEm(t, ps, n - 1);
    assert Tem(t, d, '-');
    assert o != d && o !in k && d !in k;
    assert Aplicar(t, 'o', m) == apagado[d := 'o'];
  }

  /** The dog set after such a capture. */
  lemma CachorrosApos(t: Tabuleiro, r: Tabuleiro, o: Pos, d: Pos, k: set<Pos>)
    requires CapturaDe(t, r, o, d, k)
    ensures Cachorros(r) == Cachorros(t) - k
  {
  }

  /** The jaguar set after such a capture. */
  lemma OncasApos(t: Tabuleiro, r: Tabuleiro, o: Pos, d: Pos, k: set<Pos>)
    requires CapturaDe(t, r, o, d, k)
    ensures Oncas(r) == Oncas(t) - {o} + {d}
  {
  }

  lemma TamanhoDiferenca<T>(a: set<T>, b: set<T>)
    requires b <= a
    ensures |a - b| == |a| - |b|
  {
    assert a == (a - b) + b;
  }

  /** Writing `x` on cell `p` changes the dog and jaguar sets at `p` only. */
  lemma Escrever(t: Tabuleiro, p: Pos, x: char)
    ensures Cachorros(t[p := x]) == (Cachorros(t) - {p}) + (if x == 'c' then {p} else {})
    ensures Oncas(t[p := x]) == (Oncas(t) - {p}) + (if x == 'o' then {p} else {})
  {
  }

  /** Moving a dog from `o` to the empty cell `d` moves it in the dog set, keeps
      the dog count and leaves the jaguar where it is. */
  lemma MoverCachorro(t: Tabuleiro, o: Pos, d: Pos)
    requires Tem(t, o, 'c') && Tem(t, d, '-')
    ensures var r := t[o := '-'][d := 'c'];
      && Cachorros(r) == Cachorros(t) - {o} + {d} && Oncas(r) == Oncas(t)
      && ContarCachorros(r) == ContarCachorros(t)
  {
    var t1 := t[o := '-'];
    Escrever(t, o, '-');
    Escrever(t1, d, 'c');
    Retirar(Oncas(t), o);
    Retirar(Oncas(t1), d);
    Recolocar(Cachorros(t) - {o}, d);
    Troca(Cachorros(t), o, d);
  }

  /** Moving the jaguar from `o` to the empty cell `d` moves it in the jaguar set and
      leaves the dogs alone. */
  lemma MoverOnca(t: Tabuleiro, o: Pos, d: Pos)
    requires Tem(t, o, 'o') && Tem(t, d, '-')
    ensures var r := t[o := '-'][d := 'o'];
      && Oncas(r) == Oncas(t) - {o} + {d} && Cachorros(r) == Cachorros(t)
  {
    Escrever(t, o, '-');
    Escrever(t[o := '-'], d, 'o');
  }

  /** Applying a step of side `lado` from a cell holding `lado` to an empty cell (as
      every generated step is): the origin is emptied, the target holds `lado`, nothing
      else changes, and the dog count stays. */
  lemma AplicarPasso(t: Tabuleiro, lado: char, m: Movimento)
    requires lado == 'o' || lado == 'c'
    requires m.tipo == 'm' && |m.posicoes| == 2 && Tem(t, m.posicoes[0], lado)
    requires Tem(t, m.posicoes[1], '-')
    ensures BemFormado(m)
    ensures var r, o, d := Aplicar(t, lado, m), m.posicoes[0], m.posicoes[1];
      && r.Keys == t.Keys && r[o] == '-' && r[d] == lado
      && (forall p :: p in t && p != o && p != d ==> r[p] == t[p])
      && ContarCachorros(r) == ContarCachorros(t)
      && (lado == 'c' ==> Cachorros(r) == Cachorros(t) - {o} + {d} && Oncas(r) == Oncas(t))
      && (lado == 'o' ==> Oncas(r) == Oncas(t) - {o} + {d} && Cachorros(r) == Cachorros(t))
  {
    var o, d := m.posicoes[0], m.posicoes[1];
    assert Aplicar(t, lado, m) == t[o := '-'][d := lado];
    if lado == 'c' {
      MoverCachorro(t, o, d);
    } else {
      MoverOnca(t, o, d);
    }
  }

  lemma Retirar<T>(a: set<T>, x: T)
    requires x !in a
    ensures a - {x} == a
  {
  }

  lemma Recolocar<T>(a: set<T>, x: T)
    ensures (a - {x}) + {x} == a + {x}
  {
  }

  lemma Troca<T>(a: set<T>, x: T, y: T)
    requires x in a && y !in a
    ensures |a - {x} + {y}| == |a|
  {
    assert y !in a - {x};
  }

  // ---------------------------------------------------------------------------
  // Boards the game keeps

  /** A board as the program builds it: exactly the 31 cells as keys, each holding
      `'o'`, `'c'` or `'-'`, and a single jaguar. */
  predicate TabuleiroValido(t: Tabuleiro)
  {
    && t.Keys == ADJACENCIAS.Keys
    && (forall p :: p in t ==> t[p] == 'o' || t[p] == 'c' || t[p] == '-')
    && |Oncas(t)| == 1
  }

  lemma Unitario<T>(s: set<T>) returns (x: T)
    requires |s| == 1
    ensures s == {x}
  {
    x :| x in s;
    if y :| y in s && y != x {
      assert {x, y} <= s;
      SetSizeMonotone({x, y}, s);
    }
  }

  /** On a well-formed board `posicao_onca` finds the one jaguar. */
  lemma OncaUnica(t: Tabuleiro)
    requires TabuleiroValido(t)
    ensures PosicaoOnca(t).Some? && Oncas(t) == {PosicaoOnca(t).value}
  {
    var x := Unitario(Oncas(t));
    assert EhCelula(x);
    ChavesTabela(x);
    var i :| 0 <= i < |CELULAS| && CELULAS[i] == x;
    assert Tem(t, CELULAS[i], 'o');
    assert PosicaoOnca(t).value in Oncas(t);
  }

  /** After a step or a chain the board keeps its cells and its pieces, and holds the
      jaguar on one cell only. */
  lemma ValidoApos(t: Tabuleiro, r: Tabuleiro, o: Pos, d: Pos)
    requires TabuleiroValido(t) && r.Keys == t.Keys && Oncas(r) == {d}
    requires forall p :: p in r ==> r[p] == t[p] || r[p] == '-' || r[p] == 'o' || r[p] == 'c'
    ensures TabuleiroValido(r)
  {
  }

  /** A dog move generated on a well-formed board keeps it well formed and keeps the
      dog count. */
  lemma PreservaCachorro(t: Tabuleiro, m: Movimento)
    requires TabuleiroValido(t) && m in MovimentosCachorros(t)
    ensures BemFormado(m)
    ensures TabuleiroValido(Aplicar(t, 'c', m))
    ensures ContarCachorros(Aplicar(t, 'c', m)) == ContarCachorros(t)
  {
    MovimentosCachorrosSpec(t, m);
    AplicarPasso(t, 'c', m);
    var x := Unitario(Oncas(t));
  }

  /** A jaguar move generated on a well-formed board keeps it well formed; a step keeps
      the dog count, a chain lowers it by its number of hops. */
  lemma PreservaOnca(t: Tabuleiro, m: Movimento)
    requires TabuleiroValido(t) && m in MovimentosOnca(t)
    ensures BemFormado(m)
    ensures TabuleiroValido(Aplicar(t, 'o', m))
    ensures m.tipo == 's' ==> ContarCachorros(Aplicar(t, 'o', m)) == ContarCachorros(t) - (|m.posicoes| - 1)
    ensures m.tipo != 's' ==> ContarCachorros(Aplicar(t, 'o', m)) == ContarCachorros(t)
  {
    MovimentosOncaSpec(t, m);
    OncaUnica(t);
    var ps := m.posicoes;
    if m.tipo == 'm' {
      PreservaOncaPasso(t, m);
    } else {
      PreservaOncaCadeia(t, m);
    }
  }

  lemma PreservaOncaPasso(t: Tabuleiro, m: Movimento)
    requires TabuleiroValido(t)
    requires m.tipo == 'm' && |m.posicoes| == 2 && Oncas(t) == {m.posicoes[0]}
    requires Tem(t, m.posicoes[1], '-')
    ensures BemFormado(m)
    ensures TabuleiroValido(Aplicar(t, 'o', m))
    ensures ContarCachorros(Aplicar(t, 'o', m)) == ContarCachorros(t)
  {
    AplicarPasso(t, 'o', m);
    ValidoApos(t, Aplicar(t, 'o', m), m.posicoes[0], m.posicoes[1]);
  }

  lemma PreservaOncaCadeia(t: Tabuleiro, m: Movimento)
    requires TabuleiroValido(t)
    requires m.tipo == 's' && CadeiaDeSaltos(t, m.posicoes) && Oncas(t) == {m.posicoes[0]}
    ensures BemFormado(m)
    ensures TabuleiroValido(Aplicar(t, 'o', m))
    ensures ContarCachorros(Aplicar(t, 'o', m)) == ContarCachorros(t) - (|m.posicoes| - 1)
  {
    AplicarCadeia(t, m);
    var ps := m.posicoes;
    TrocaUnica(Oncas(t), ps[0], ps[|ps| - 1]);
    ValidoAposCadeia(t, Aplicar(t, 'o', m), ps[0], ps[|ps| - 1], Capturados(ps));
  }

  /** A board that differs from a well-formed one only by emptied cells and by the
      jaguar's new cell, and holds one jaguar, is well formed. */
  lemma ValidoAposCadeia(t: Tabuleiro, r: Tabuleiro, o: Pos, d: Pos, k: set<Pos>)
    requires TabuleiroValido(t) && CapturaDe(t, r, o, d, k) && Oncas(r) == {d}
    ensures TabuleiroValido(r)
  {
    forall p | p in r
      ensures r[p] == 'o' || r[p] == 'c' || r[p] == '-'
    {
      if p !in k && p != o && p != d {
        assert r[p] == t[p];
      }
    }
  }

  lemma TrocaUnica<T>(a: set<T>, x: T, y: T)
    requires a == {x}
    ensures a - {x} + {y} == {y} && |{y}| == 1
  {
  }

  /** Every move either side generates on a well-formed board can be applied, and the
      board it yields is well formed again: still the 31 cells, one jaguar. A dog move
      keeps the dog count, a jaguar move lowers it by the number of dogs it jumps. */
  lemma MovimentoPreservaValido(t: Tabuleiro, lado: char, m: Movimento)
    requires TabuleiroValido(t) && (lado == 'o' || lado == 'c')
    requires m in Movimentos(t, lado)
    ensures BemFormado(m)
    ensures TabuleiroValido(Aplicar(t, lado, m))
    ensures m.tipo == 's' ==> ContarCachorros(Aplicar(t, lado, m)) == ContarCachorros(t) - (|m.posicoes| - 1)
    ensures m.tipo != 's' ==> ContarCachorros(Aplicar(t, lado, m)) == ContarCachorros(t)
  {
    if lado == 'o' {
      PreservaOnca(t, m);
    } else {
      PreservaCachorro(t, m);
      MovimentosCachorrosSpec(t, m);
    }
  }

  /** A legal step of the jaguar is one of its moves. */
  lemma PassoEhMovimento(t: Tabuleiro, d: Pos)
    requires PosicaoOnca(t).Some? && PassoLegal(t, PosicaoOnca(t).value, d)
    ensures Movimento('m', [PosicaoOnca(t).value, d]) in MovimentosOnca(t)
  {
    MovimentosOncaSpec(t, Movimento('m', [PosicaoOnca(t).value, d]));
  }

  /** A legal single hop of the jaguar is one of its moves. */
  lemma SaltoEhMovimento(t: Tabuleiro, d: Pos)
    requires PosicaoOnca(t).Some? && SaltoLegal(t, PosicaoOnca(t).value, d)
    ensures Movimento('s', [PosicaoOnca(t).value, d]) in MovimentosOnca(t)
  {
    var p := PosicaoOnca(t).value;
    assert SaltoLegalEm(t, [p, d], 1);
    assert CadeiaDeSaltos(t, [p, d]);
    MovimentosOncaSpec(t, Movimento('s', [p, d]));
  }

  /** Every jaguar move begins with a legal step or a legal hop. */
  lemma MovimentoComeca(t: Tabuleiro, m: Movimento)
    requires m in MovimentosOnca(t)
    ensures PosicaoOnca(t).Some? && |m.posicoes| >= 2
    ensures PassoLegal(t, PosicaoOnca(t).value, m.posicoes[1]) || SaltoLegal(t, PosicaoOnca(t).value, m.posicoes[1])
  {
    MovimentosOncaSpec(t, m);
    if m.tipo == 's' {
      assert SaltoLegalEm(t, m.posicoes, 1);
    }
  }

  /** The jaguar is blocked exactly when it has neither a legal step nor a legal first
      hop: a longer chain always starts with a hop that is a move by itself. */
  lemma OncaBloqueada(t: Tabuleiro)
    ensures MovimentosOnca(t) == [] <==>
      || PosicaoOnca(t).None?
      || forall d :: !PassoLegal(t, PosicaoOnca(t).value, d) && !SaltoLegal(t, PosicaoOnca(t).value, d)
  {
    if MovimentosOnca(t) != [] {
      MovimentoComeca(t, MovimentosOnca(t)[0]);
    }
    if PosicaoOnca(t).Some? {
      var p := PosicaoOnca(t).value;
      if d :| PassoLegal(t, p, d) {
        PassoEhMovimento(t, d);
      } else if d :| SaltoLegal(t, p, d) {
        SaltoEhMovimento(t, d);
      }
    }
  }

  /** `vencedor`: the jaguar wins exactly when at most nine dogs are left; the dogs win
      exactly when more remain and the jaguar can neither step nor jump; otherwise the
      game goes on, which is precisely when `eh_terminal` is false. */
  lemma VencedorSpec(t: Tabuleiro)
    ensures Vencedor(t) == Some('o') <==> ContarCachorros(t) <= 9
    ensures Vencedor(t) == Some('c') <==>
      && ContarCachorros(t) > 9
      && (|| PosicaoOnca(t).None?
          || forall d :: !PassoLegal(t, PosicaoOnca(t).value, d) && !SaltoLegal(t, PosicaoOnca(t).value, d))
    ensures Vencedor(t).None? <==> !EhTerminal(t)
  {
    OncaBloqueada(t);
  }

  lemma CaoInicial(p: Pos)
    ensures p in Cachorros(TabuleiroInicial()) <==> NaGrade(p) && p.l <= 3 && p != Pos(3, 3)
  {
    FormaDasCelulas(p);
  }

  lemma InicialCachorros()
    ensures Cachorros(TabuleiroInicial()) == CAES_INICIAIS
  {
    forall p
      ensures p in Cachorros(TabuleiroInicial()) <==> p in CAES_INICIAIS
    {
      CaoInicial(p);
      CaesIniciaisForma(p);
    }
  }

  lemma InicialOnca()
    ensures Oncas(TabuleiroInicial()) == {Pos(3, 3)}
  {
    FormaDasCelulas(Pos(3, 3));
  }

  lemma InicialValido()
    ensures TabuleiroValido(TabuleiroInicial())
  {
    InicialOnca();
  }

  lemma InicialContagem()
    ensures ContarCachorros(TabuleiroInicial()) == 14
  {
    InicialCachorros();
    CatorzeCaes();
  }

  lemma InicialPasso()
    ensures PassoLegal(TabuleiroInicial(), Pos(3, 3), Pos(4, 3))
  {
    VizinhosDoCentro();
    FormaDasCelulas(Pos(4, 3));
  }

  lemma InicialJogavel()
    ensures Vencedor(TabuleiroInicial()).None?
  {
    var t := TabuleiroInicial();
    InicialContagem();
    InicialValido();
    OncaUnica(t);
    InicialOnca();
    InicialPasso();
    PassoEhMovimento(t, Pos(4, 3));
  }

  /** The opening position: 14 dogs on rows 1-3, the jaguar alone on (3, 3), every
      other cell empty; a well-formed board on which nobody has won yet. */
  lemma TabuleiroInicialSpec()
    ensures TabuleiroValido(TabuleiroInicial())
    ensures Oncas(TabuleiroInicial()) == {Pos(3, 3)}
    ensures forall p :: p in Cachorros(TabuleiroInicial()) <==> EhCelula(p) && p.l <= 3 && p != Pos(3, 3)
    ensures ContarCachorros(TabuleiroInicial()) == 14
    ensures Vencedor(TabuleiroInicial()).None?
  {
    InicialOnca();
    InicialValido();
    InicialContagem();
    InicialJogavel();
    forall p ensures p in Cachorros(TabuleiroInicial()) <==> EhCelula(p) && p.l <= 3 && p != Pos(3, 3) {
      FormaDasCelulas(p);
    }
  }
}
