/** `BuscaAdversarial` of busca.py on the engine's boards: the game tree `_minimax`
    walks, the root driver `melhor_movimento` with iterative deepening, and the class
    whose methods update the node and cut counters. The search never runs out of time
    (`tempo_limite = None`), so every `tempo_esgotado()` test is false. */
module Busca {
  import opened Wrappers
  import opened Topologia
  import opened Jogo
  import opened Estado
  import opened Ordenacao
  import opened Avaliacao
  import opened AlfaBeta

  // ---------------------------------------------------------------------------
  // The game tree of `_minimax`

  /** `lado_atual`: the maximizing side at a MAX node, the other side at a MIN node. */
  function LadoAtual(maximizando: bool, ladoMax: char): char
  {
    if maximizando then ladoMax else if ladoMax == 'o' then 'c' else 'o'
  }

  /** The moves of a node in the order the search tries them: the generated moves
      sorted by `_ordenar_movimentos`. */
  function Jogadas(t: Tabuleiro, lado: char): (ms: seq<Movimento>)
    ensures forall i :: 0 <= i < |ms| ==> BemFormado(ms[i]) && ms[i] in Movimentos(t, lado)
    ensures |ms| == |Movimentos(t, lado)|
  {
    MovimentosOrdenaveis(t, lado);
    OrdenarSpec(t, lado, Movimentos(t, lado));
    var ms := Ordenar(t, lado, Movimentos(t, lado));
    assert forall i :: 0 <= i < |ms| ==> ms[i] in multiset(ms);
    assert |ms| == |multiset(ms)| == |multiset(Movimentos(t, lado))|;
    ms
  }

  /** The tree `_minimax(estado, prof, ..., maximizando, lado_max)` searches: every
      node is scored by `_avaliar(estado, lado_max)`; it is a leaf at depth 0, on a
      finished game and when the side to move has no move, and otherwise has one
      child per move, in search order, one level shallower. */
  function ArvoreDe(t: Tabuleiro, prof: nat, maximizando: bool, ladoMax: char): Arvore
    decreases prof, 1
  {
    if prof == 0 || EhTerminal(t) then No(Avaliar(t, ladoMax), [])
    else
      var lado := LadoAtual(maximizando, ladoMax);
      No(Avaliar(t, ladoMax), Filhos(t, lado, Jogadas(t, lado), prof - 1, !maximizando, ladoMax))
  }

  /** The trees of the boards `ms` lead to. */
  function Filhos(t: Tabuleiro, lado: char, ms: seq<Movimento>, prof: nat, maximizando: bool, ladoMax: char): seq<Arvore>
    requires forall i :: 0 <= i < |ms| ==> BemFormado(ms[i])
    decreases prof, 3
  {
    seq(|ms|, i requires 0 <= i < |ms| => Filho(t, lado, ms[i], prof, maximizando, ladoMax))
  }

  /** The tree of the board move `m` leads to. */
  function Filho(t: Tabuleiro, lado: char, m: Movimento, prof: nat, maximizando: bool, ladoMax: char): Arvore
    requires BemFormado(m)
    decreases prof, 2
  {
    ArvoreDe(Aplicar(t, lado, m), prof, maximizando, ladoMax)
  }

  /** The tree searches are stated on is the game's: a node's score is `_avaliar` of
      its board, it is a leaf exactly in the three cases where `_minimax` does not
      recurse, and its children are the boards after each generated move, in the order
      `_ordenar_movimentos` gives, searched for the other side. */
  lemma ArvoreDeSpec(t: Tabuleiro, prof: nat, maximizando: bool, ladoMax: char)
    ensures var a, lado := ArvoreDe(t, prof, maximizando, ladoMax), LadoAtual(maximizando, ladoMax);
      && a.avaliacao == Avaliar(t, ladoMax)
      && (a.filhos == [] <==> prof == 0 || EhTerminal(t) || Movimentos(t, lado) == [])
      && (a.filhos != [] ==>
            && |a.filhos| == |Movimentos(t, lado)|
            && (forall i :: 0 <= i < |a.filhos| ==> Jogadas(t, lado)[i] in Movimentos(t, lado))
            && a.filhos == Filhos(t, lado, Jogadas(t, lado), prof - 1, !maximizando, ladoMax))
  {
  }

  /** `_minimax` does not recurse at depth 0, on a finished game or when the side to
      move has no move: it counts its node and returns `_avaliar(estado, lado_max)`. */
  lemma MinimaxFolha(t: Tabuleiro, prof: nat, alfa: Valor, beta: Valor, maximizando: bool, ladoMax: char)
    requires prof == 0 || EhTerminal(t) || Movimentos(t, LadoAtual(maximizando, ladoMax)) == []
    ensures AB(ArvoreDe(t, prof, maximizando, ladoMax), alfa, beta, maximizando)
      == Resultado(Fin(Avaliar(t, ladoMax)), 1, 0, 0)
  {
    ArvoreDeSpec(t, prof, maximizando, ladoMax);
  }

  // ---------------------------------------------------------------------------
  // `melhor_movimento`

  /** The state of `melhor_movimento`: `melhor_mov`, `melhor_valor` and the three
      counters. */
  datatype Escolha = Escolha(mov: Option<Movimento>, melhor: Valor, nos: nat, cortesAlfa: nat, cortesBeta: nat)

  /** The root at depth `prof`: the board's moves in search order, each child searched
      as a MIN node one level shallower. Unlike `_minimax`, the root does not test for
      a finished game. */
  function ArvoreRaiz(t: Tabuleiro, lado: char, prof: nat): (a: Arvore)
    requires prof >= 1
    ensures |a.filhos| == |Jogadas(t, lado)|
  {
    No(Avaliar(t, lado), Filhos(t, lado, Jogadas(t, lado), prof - 1, false, lado))
  }

  /** The loop over the root's moves from move `i` on, with the current `alfa`: each
      child is searched with window (alfa, +inf), replaces the best move when its value
      is strictly greater than `melhor_valor`, and raises `alfa`. */
  function Raiz(a: Arvore, ms: seq<Movimento>, i: nat, alfa: Valor, e: Escolha): Escolha
    requires |a.filhos| == |ms| && i <= |ms|
    decreases |ms| - i
  {
    if i == |ms| then e
    else
      var c := AB(a.filhos[i], alfa, MaisInf, false);
      var e2 := e.(nos := e.nos + c.nos, cortesAlfa := e.cortesAlfa + c.cortesAlfa, cortesBeta := e.cortesBeta + c.cortesBeta);
      var e3 := if Lt(e.melhor, c.valor) then e2.(mov := Some(ms[i]), melhor := c.valor) else e2;
      Raiz(a, ms, i + 1, Max(alfa, c.valor), e3)
  }

  /** The deepening loop from depth `prof` to `profMax`; `melhor_valor` and
      `melhor_mov` carry over from one depth to the next. */
  function Aprofundar(t: Tabuleiro, lado: char, prof: nat, profMax: int, e: Escolha): Escolha
    requires prof >= 1
    decreases profMax - prof + 1
  {
    if prof > profMax then e
    else
      var ms := Jogadas(t, lado);
      if ms == [] then e.(mov := None)
      else Aprofundar(t, lado, prof + 1, profMax, Raiz(ArvoreRaiz(t, lado, prof), ms, 0, MenosInf, e))
  }

  /** `melhor_movimento(estado, lado)` with `profundidade_maxima = profMax`. */
  function Melhor(t: Tabuleiro, lado: char, profMax: int): Escolha
  {
    Aprofundar(t, lado, 1, profMax, Escolha(None, MenosInf, 0, 0, 0))
  }

  /** The best root value over depths `1 .. p`, each depth's value being the plain
      minimax value of the root. */
  function MaxProf(t: Tabuleiro, lado: char, p: int): Valor
    decreases p
  {
    if p < 1 then MenosInf else Max(MaxProf(t, lado, p - 1), MM(ArvoreRaiz(t, lado, p), true))
  }

  /** The chosen move is the move of some child at some depth up to `profMax` whose
      exact minimax value is `melhor`. */
  predicate Escolhido(t: Tabuleiro, lado: char, profMax: int, e: Escolha)
  {
    e.mov.Some? ==>
      exists p, j :: 1 <= p <= profMax && 0 <= j < |Jogadas(t, lado)|
        && Jogadas(t, lado)[j] == e.mov.value && e.melhor == MM(ArvoreRaiz(t, lado, p).filhos[j], false)
  }

  /** One depth of the root loop. Each child searched with window (alfa, +inf) leaves
      `melhor_valor` at the maximum of its old value and the child's true value, since
      `melhor_valor` never falls below `alfa`; a replaced move is one whose value was
      found exactly. */
  lemma {:induction false} RaizSpec(a: Arvore, ms: seq<Movimento>, i: nat, alfa: Valor, e: Escolha)
    requires |a.filhos| == |ms| && i <= |ms|
    requires alfa != MaisInf && Le(alfa, e.melhor)
    ensures var r := Raiz(a, ms, i, alfa, e);
      && r.melhor == Max(e.melhor, MaxFilhos(a, i))
      && ((r.mov == e.mov && r.melhor == e.melhor)
          || exists j :: i <= j < |ms| && r.mov == Some(ms[j]) && r.melhor == MM(a.filhos[j], false))
      && (e.mov.Some? || (i < |ms| && e.melhor == MenosInf) ==> r.mov.Some?)
    decreases |ms| - i
  {
    if i < |ms| {
      var c := AB(a.filhos[i], alfa, MaisInf, false);
      var v := MM(a.filhos[i], false);
      ABFailSoft(a.filhos[i], alfa, MaisInf, false);
      ABFinito(a.filhos[i], alfa, MaisInf, false);
      var e2 := e.(nos := e.nos + c.nos, cortesAlfa := e.cortesAlfa + c.cortesAlfa, cortesBeta := e.cortesBeta + c.cortesBeta);
      var e3 := if Lt(e.melhor, c.valor) then e2.(mov := Some(ms[i]), melhor := c.valor) else e2;
      PassoRaiz(alfa, e.melhor, c.valor, v);
      RaizSpec(a, ms, i + 1, Max(alfa, c.valor), e3);
      MaxAssoc(e.melhor, v, MaxFilhos(a, i + 1));
    }
  }

  /** One child at the root: with `alfa <= melhor` and the child's result `r` fail-soft
      against its true value `v`, the best value becomes `max(melhor, v)`, a
      replacement happens only on an exact value, and `alfa <= melhor` carries over. */
  lemma PassoRaiz(alfa: Valor, melhor: Valor, r: Valor, v: Valor)
    requires alfa != MaisInf && Le(alfa, melhor) && r.Fin?
    requires FailSoft(alfa, MaisInf, r, v)
    ensures (if Lt(melhor, r) then r else melhor) == Max(melhor, v)
    ensures Lt(melhor, r) ==> r == v
    ensures Max(alfa, r) != MaisInf && Le(Max(alfa, r), if Lt(melhor, r) then r else melhor)
  {
  }

  /** The deepening loop: with at least one move, every depth runs the root loop, so
      the result holds a move, its value is the best root value over all depths, and
      that value is the exact minimax value of the chosen move's child at one of them. */
  lemma {:induction false} AprofundarSpec(t: Tabuleiro, lado: char, prof: nat, profMax: int, e: Escolha)
    requires 1 <= prof <= profMax + 1
    requires Jogadas(t, lado) != []
    requires e.melhor == MaxProf(t, lado, prof - 1)
    requires prof > 1 ==> e.mov.Some?
    requires Escolhido(t, lado, prof - 1, e)
    ensures var r := Aprofundar(t, lado, prof, profMax, e);
      && r.melhor == MaxProf(t, lado, profMax)
      && (profMax >= 1 ==> r.mov.Some?)
      && Escolhido(t, lado, profMax, r)
    decreases profMax - prof + 1
  {
    if prof <= profMax {
      var ms := Jogadas(t, lado);
      var a := ArvoreRaiz(t, lado, prof);
      var e2 := Raiz(a, ms, 0, MenosInf, e);
      RaizSpec(a, ms, 0, MenosInf, e);
      assert MM(a, true) == MaxFilhos(a, 0);
      if e2.mov == e.mov && e2.melhor == e.melhor {
        EscolhidoCresce(t, lado, prof - 1, prof, e);
      } else {
        var j :| 0 <= j < |ms| && e2.mov == Some(ms[j]) && e2.melhor == MM(a.filhos[j], false);
        assert 1 <= prof <= prof && Jogadas(t, lado)[j] == e2.mov.value
          && e2.melhor == MM(ArvoreRaiz(t, lado, prof).filhos[j], false);
      }
      AprofundarSpec(t, lado, prof + 1, profMax, e2);
    }
  }

  lemma EscolhidoCresce(t: Tabuleiro, lado: char, p: int, q: int, e: Escolha)
    requires p <= q && Escolhido(t, lado, p, e)
    ensures Escolhido(t, lado, q, e)
  {
    if e.mov.Some? {
      var p', j :| 1 <= p' <= p && 0 <= j < |Jogadas(t, lado)|
        && Jogadas(t, lado)[j] == e.mov.value && e.melhor == MM(ArvoreRaiz(t, lado, p').filhos[j], false);
      assert 1 <= p' <= q;
    }
  }

  /** `melhor_movimento` returns None exactly when the search runs no depth or the side
      has no move. */
  lemma MelhorNenhum(t: Tabuleiro, lado: char, profMax: int)
    ensures Melhor(t, lado, profMax).mov.None? <==> profMax < 1 || Movimentos(t, lado) == []
  {
    if profMax >= 1 && Movimentos(t, lado) != [] {
      AprofundarSpec(t, lado, 1, profMax, Escolha(None, MenosInf, 0, 0, 0));
    }
  }

  /** The move returned is one of the side's moves; `melhor_valor`, never reset between
      depths, ends as the best root value over all depths, and it is the exact minimax
      value of the returned move's child at one of those depths. */
  lemma MelhorValor(t: Tabuleiro, lado: char, profMax: int)
    requires Melhor(t, lado, profMax).mov.Some?
    ensures var e := Melhor(t, lado, profMax);
      && e.mov.value in Movimentos(t, lado)
      && e.melhor == MaxProf(t, lado, profMax)
      && Escolhido(t, lado, profMax, e)
  {
    MelhorNenhum(t, lado, profMax);
    var e0 := Escolha(None, MenosInf, 0, 0, 0);
    AprofundarSpec(t, lado, 1, profMax, e0);
    var e := Melhor(t, lado, profMax);
    var p, j :| 1 <= p <= profMax && 0 <= j < |Jogadas(t, lado)|
      && Jogadas(t, lado)[j] == e.mov.value && e.melhor == MM(ArvoreRaiz(t, lado, p).filhos[j], false);
  }

  /** The root at any depth is the tree `_minimax` searches at a MAX node of the same
      side, except on a finished game, where `_minimax` would not recurse; and a depth's
      root value is the largest of its children's values. */
  lemma ArvoreRaizSpec(t: Tabuleiro, lado: char, prof: nat)
    requires prof >= 1
    ensures !EhTerminal(t) ==> ArvoreRaiz(t, lado, prof) == ArvoreDe(t, prof, true, lado)
    ensures Movimentos(t, lado) != [] ==>
      forall j :: 0 <= j < |Jogadas(t, lado)| ==>
        Le(MM(ArvoreRaiz(t, lado, prof).filhos[j], false), MM(ArvoreRaiz(t, lado, prof), true))
  {
    if Movimentos(t, lado) != [] {
      MMEscolhe(ArvoreRaiz(t, lado, prof), true);
    }
  }

  // ---------------------------------------------------------------------------
  // The class

  /** A search result with counter values added to its counts. */
  function Somado(r: Resultado, nos: nat, cortesAlfa: nat, cortesBeta: nat): Resultado
  {
    Resultado(r.valor, r.nos + nos, r.cortesAlfa + cortesAlfa, r.cortesBeta + cortesBeta)
  }

  /** `BuscaAdversarial`: the depth bound and the counters of the last search. */
  class BuscaAdversarial {
    var profundidadeMaxima: int
    var nosExplorados: nat
    var cortesAlfa: nat
    var cortesBeta: nat

    /** `BuscaAdversarial(profundidade_maxima)` with no time limit. */
    constructor (profundidadeMaxima: int)
      ensures this.profundidadeMaxima == profundidadeMaxima
      ensures nosExplorados == 0 && cortesAlfa == 0 && cortesBeta == 0
    {
      this.profundidadeMaxima := profundidadeMaxima;
      nosExplorados := 0;
      cortesAlfa := 0;
      cortesBeta := 0;
    }

    /** `melhor_movimento(estado, lado)` with no time limit: resets the counters,
        deepens from 1 to `profundidade_maxima`, at each depth searches every root move
        in search order as a MIN node with window (alfa, +inf), keeps the first move of
        strictly greatest value, and returns `None` when the side has no move. */
    method MelhorMovimento(estado: EstadoJogo, lado: char) returns (melhorMov: Option<Movimento>)
      modifies this
      ensures var e := Melhor(estado.tabuleiro, lado, profundidadeMaxima);
        && melhorMov == e.mov
        && nosExplorados == e.nos && cortesAlfa == e.cortesAlfa && cortesBeta == e.cortesBeta
      ensures profundidadeMaxima == old(profundidadeMaxima)
    {
      nosExplorados := 0;
      cortesAlfa := 0;
      cortesBeta := 0;
      melhorMov := None;
      var melhorValor := MenosInf;
      var t := estado.tabuleiro;
      var prof := 1;
      while prof <= profundidadeMaxima
        invariant prof >= 1 && profundidadeMaxima == old(profundidadeMaxima) && estado.tabuleiro == t
        invariant Aprofundar(t, lado, prof, profundidadeMaxima, Escolha(melhorMov, melhorValor, nosExplorados, cortesAlfa, cortesBeta))
          == Melhor(t, lado, profundidadeMaxima)
        decreases profundidadeMaxima - prof
      {
        var movimentos := estado.GerarMovimentos(lado);
        if movimentos == [] {
          melhorMov := None;
          return;
        }
        movimentos := Ordenar(t, lado, movimentos);
        melhorMov, melhorValor := BuscarRaiz(estado, lado, movimentos, ArvoreRaiz(t, lado, prof), prof, melhorMov, melhorValor);
        prof := prof + 1;
      }
    }

    /** One depth of `melhor_movimento`: the loop over the root's moves, starting from
        the best move and value the shallower depths left. */
    method BuscarRaiz(estado: EstadoJogo, lado: char, movimentos: seq<Movimento>, ghost a: Arvore, prof: nat,
                      mov0: Option<Movimento>, valor0: Valor) returns (melhorMov: Option<Movimento>, melhorValor: Valor)
      requires prof >= 1 && |a.filhos| == |movimentos|
      requires forall i :: 0 <= i < |movimentos| ==> BemFormado(movimentos[i])
      requires a.filhos == Filhos(estado.tabuleiro, lado, movimentos, prof - 1, false, lado)
      modifies this
      ensures Escolha(melhorMov, melhorValor, nosExplorados, cortesAlfa, cortesBeta)
        == Raiz(a, movimentos, 0, MenosInf, Escolha(mov0, valor0, old(nosExplorados), old(cortesAlfa), old(cortesBeta)))
      ensures profundidadeMaxima == old(profundidadeMaxima)
    {
      melhorMov, melhorValor := mov0, valor0;
      var alfa := MenosInf;
      var beta := MaisInf;
      var i := 0;
      while i < |movimentos|
        invariant i <= |movimentos| && profundidadeMaxima == old(profundidadeMaxima)
        invariant Raiz(a, movimentos, i, alfa, Escolha(melhorMov, melhorValor, nosExplorados, cortesAlfa, cortesBeta))
          == Raiz(a, movimentos, 0, MenosInf, Escolha(mov0, valor0, old(nosExplorados), old(cortesAlfa), old(cortesBeta)))
      {
        var valor := BuscarFilho(estado, lado, movimentos, i, a.filhos, prof - 1, alfa, beta, false, lado);
        if Lt(melhorValor, valor) {
          melhorValor := valor;
          melhorMov := Some(movimentos[i]);
        }
        alfa := Max(alfa, valor);
        i := i + 1;
      }
    }

    /** `_minimax(estado, profundidade, alfa, beta, maximizando, lado_max)`: returns
        the pruned search value of the board's tree and adds that search's node and cut
        counts to the fields. */
    method Minimax(estado: EstadoJogo, profundidade: nat, alfa: Valor, beta: Valor, maximizando: bool, ladoMax: char)
      returns (valor: Valor)
      modifies this
      ensures var r := AB(ArvoreDe(estado.tabuleiro, profundidade, maximizando, ladoMax), alfa, beta, maximizando);
        && valor == r.valor
        && nosExplorados == old(nosExplorados) + r.nos
        && cortesAlfa == old(cortesAlfa) + r.cortesAlfa
        && cortesBeta == old(cortesBeta) + r.cortesBeta
      ensures profundidadeMaxima == old(profundidadeMaxima)
      decreases profundidade, 3
    {
      nosExplorados := nosExplorados + 1;
      var t := estado.tabuleiro;
      ArvoreDeSpec(t, profundidade, maximizando, ladoMax);
      if profundidade == 0 || EhTerminal(t) {
        MinimaxFolha(t, profundidade, alfa, beta, maximizando, ladoMax);
        valor := Fin(Avaliar(t, ladoMax));
        return;
      }
      var ladoAtual := LadoAtual(maximizando, ladoMax);
      var movimentos := estado.GerarMovimentos(ladoAtual);
      if movimentos == [] {
        MinimaxFolha(t, profundidade, alfa, beta, maximizando, ladoMax);
        valor := Fin(Avaliar(t, ladoMax));
        return;
      }
      movimentos := Ordenar(t, ladoAtual, movimentos);
      ghost var a := ArvoreDe(t, profundidade, maximizando, ladoMax);
      if maximizando {
        valor := RamoMax(estado, movimentos, a, profundidade, alfa, beta, ladoMax);
      } else {
        valor := RamoMin(estado, movimentos, a, profundidade, alfa, beta, ladoMax);
      }
    }

    /** The MAX branch of `_minimax`: each move's board is searched as a MIN node, the
        best value so far raises `alfa`, and the loop breaks with a beta cut once
        `beta <= alfa`. */
    method RamoMax(estado: EstadoJogo, movimentos: seq<Movimento>, ghost a: Arvore, profundidade: nat,
                   alfa: Valor, beta: Valor, ladoMax: char) returns (valor: Valor)
      requires profundidade >= 1 && |a.filhos| == |movimentos|
      requires forall i :: 0 <= i < |movimentos| ==> BemFormado(movimentos[i])
      requires a.filhos == Filhos(estado.tabuleiro, ladoMax, movimentos, profundidade - 1, false, ladoMax)
      modifies this
      ensures Resultado(valor, nosExplorados, cortesAlfa, cortesBeta)
        == Somado(LacoMax(a, 0, alfa, beta, MenosInf), old(nosExplorados), old(cortesAlfa), old(cortesBeta))
      ensures profundidadeMaxima == old(profundidadeMaxima)
      decreases profundidade, 2
    {
      valor := MenosInf;
      var alfaAtual := alfa;
      var i := 0;
      while i < |movimentos|
        invariant i <= |movimentos| && profundidadeMaxima == old(profundidadeMaxima)
        invariant Somado(LacoMax(a, i, alfaAtual, beta, valor), nosExplorados, cortesAlfa, cortesBeta)
          == Somado(LacoMax(a, 0, alfa, beta, MenosInf), old(nosExplorados), old(cortesAlfa), old(cortesBeta))
      {
        ghost var antes := (nosExplorados, cortesAlfa, cortesBeta);
        var v := BuscarFilho(estado, ladoMax, movimentos, i, a.filhos, profundidade - 1, alfaAtual, beta, false, ladoMax);
        var corte;
        valor, alfaAtual, corte := PassoMax(a, i, alfaAtual, beta, valor, v, antes.0, antes.1, antes.2);
        if corte {
          break;
        }
        i := i + 1;
      }
    }

    /** One turn of the MAX loop, after the child's search: the child's value `v`
        raises `valor` and `alfa`, and a cut (`beta <= alfa`) is counted in
        `cortes_beta`. The counters held `nos`, `ca`, `cb` before the child's search. */
    method PassoMax(ghost a: Arvore, ghost i: nat, alfa: Valor, beta: Valor, valor: Valor, v: Valor,
                    ghost nos: nat, ghost ca: nat, ghost cb: nat) returns (valor2: Valor, alfa2: Valor, corte: bool)
      requires i < |a.filhos|
      requires Somado(AB(a.filhos[i], alfa, beta, false), nos, ca, cb) == Resultado(v, nosExplorados, cortesAlfa, cortesBeta)
      modifies this
      ensures Somado(LacoMax(a, i, alfa, beta, valor), nos, ca, cb)
        == if corte then Resultado(valor2, nosExplorados, cortesAlfa, cortesBeta)
           else Somado(LacoMax(a, i + 1, alfa2, beta, valor2), nosExplorados, cortesAlfa, cortesBeta)
      ensures profundidadeMaxima == old(profundidadeMaxima)
    {
      valor2 := Max(valor, v);
      alfa2 := Max(alfa, valor2);
      corte := Le(beta, alfa2);
      if corte {
        cortesBeta := cortesBeta + 1;
      }
    }

    /** The MIN branch of `_minimax`: each move's board is searched as a MAX node, the
        least value so far lowers `beta`, and the loop breaks with an alpha cut once
        `beta <= alfa`. */
    method RamoMin(estado: EstadoJogo, movimentos: seq<Movimento>, ghost a: Arvore, profundidade: nat,
                   alfa: Valor, beta: Valor, ladoMax: char) returns (valor: Valor)
      requires profundidade >= 1 && |a.filhos| == |movimentos|
      requires forall i :: 0 <= i < |movimentos| ==> BemFormado(movimentos[i])
      requires a.filhos == Filhos(estado.tabuleiro, LadoAtual(false, ladoMax), movimentos, profundidade - 1, true, ladoMax)
      modifies this
      ensures Resultado(valor, nosExplorados, cortesAlfa, cortesBeta)
        == Somado(LacoMin(a, 0, alfa, beta, MaisInf), old(nosExplorados), old(cortesAlfa), old(cortesBeta))
      ensures profundidadeMaxima == old(profundidadeMaxima)
      decreases profundidade, 2
    {
      valor := MaisInf;
      var betaAtual := beta;
      var i := 0;
      while i < |movimentos|
        invariant i <= |movimentos| && profundidadeMaxima == old(profundidadeMaxima)
        invariant Somado(LacoMin(a, i, alfa, betaAtual, valor), nosExplorados, cortesAlfa, cortesBeta)
          == Somado(LacoMin(a, 0, alfa, beta, MaisInf), old(nosExplorados), old(cortesAlfa), old(cortesBeta))
      {
        ghost var antes := (nosExplorados, cortesAlfa, cortesBeta);
        var v := BuscarFilho(estado, LadoAtual(false, ladoMax), movimentos, i, a.filhos, profundidade - 1, alfa, betaAtual, true, ladoMax);
        var corte;
        valor, betaAtual, corte := PassoMin(a, i, alfa, betaAtual, valor, v, antes.0, antes.1, antes.2);
        if corte {
          break;
        }
        i := i + 1;
      }
    }

    /** One turn of the MIN loop, after the child's search: the child's value `v`
        lowers `valor` and `beta`, and a cut (`beta <= alfa`) is counted in
        `cortes_alfa`. The counters held `nos`, `ca`, `cb` before the child's search. */
    method PassoMin(ghost a: Arvore, ghost i: nat, alfa: Valor, beta: Valor, valor: Valor, v: Valor,
                    ghost nos: nat, ghost ca: nat, ghost cb: nat) returns (valor2: Valor, beta2: Valor, corte: bool)
      requires i < |a.filhos|
      requires Somado(AB(a.filhos[i], alfa, beta, true), nos, ca, cb) == Resultado(v, nosExplorados, cortesAlfa, cortesBeta)
      modifies this
      ensures Somado(LacoMin(a, i, alfa, beta, valor), nos, ca, cb)
        == if corte then Resultado(valor2, nosExplorados, cortesAlfa, cortesBeta)
           else Somado(LacoMin(a, i + 1, alfa, beta2, valor2), nosExplorados, cortesAlfa, cortesBeta)
      ensures profundidadeMaxima == old(profundidadeMaxima)
    {
      valor2 := Min(valor, v);
      beta2 := Min(beta, valor2);
      corte := Le(beta2, alfa);
      if corte {
        cortesAlfa := cortesAlfa + 1;
      }
    }

    /** Child `i` of a node: the board after move `ms[i]`, searched one level deeper. */
    method BuscarFilho(estado: EstadoJogo, lado: char, ms: seq<Movimento>, i: nat, ghost fs: seq<Arvore>, profundidade: nat,
                       alfa: Valor, beta: Valor, maximizando: bool, ladoMax: char) returns (valor: Valor)
      requires i < |ms| && forall j :: 0 <= j < |ms| ==> BemFormado(ms[j])
      requires fs == Filhos(estado.tabuleiro, lado, ms, profundidade, maximizando, ladoMax)
      modifies this
      ensures var r := AB(fs[i], alfa, beta, maximizando);
        && valor == r.valor
        && nosExplorados == old(nosExplorados) + r.nos
        && cortesAlfa == old(cortesAlfa) + r.cortesAlfa
        && cortesBeta == old(cortesBeta) + r.cortesBeta
      ensures profundidadeMaxima == old(profundidadeMaxima)
      decreases profundidade, 4
    {
      var novo := estado.AplicarMovimento(lado, ms[i]);
      valor := Minimax(novo, profundidade, alfa, beta, maximizando, ladoMax);
    }
  }
}
