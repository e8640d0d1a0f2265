/** The search of busca.py on an explicit game tree. `_minimax` only looks at a board
    through its static score, its ordered moves and the boards they lead to, so it is
    stated here on a tree whose nodes carry a score and the subtrees of their moves in
    search order; module `Busca` builds that tree from the engine's boards.

    `AB` is what `_minimax` computes (its value and what it adds to the node and cut
    counters) and `MM` is plain minimax over the same tree, the reference the pruned
    search is proved against. */
module AlfaBeta {

  // ---------------------------------------------------------------------------
  // Scores with infinities

  /** A Python float as the search uses it: a finite score or +-inf. */
  datatype Valor = MenosInf | Fin(v: real) | MaisInf

  predicate Le(a: Valor, b: Valor)
  {
    match a
    case MenosInf => true
    case Fin(x) => (match b case MenosInf => false case Fin(y) => x <= y case MaisInf => true)
    case MaisInf => b == MaisInf
  }

  predicate Lt(a: Valor, b: Valor)
  {
    !Le(b, a)
  }

  /** Python's `max(a, b)`: `a` unless `b` is strictly larger. */
  function Max(a: Valor, b: Valor): Valor
  {
    if Lt(a, b) then b else a
  }

  /** Python's `min(a, b)`: `a` unless `b` is strictly smaller. */
  function Min(a: Valor, b: Valor): Valor
  {
    if Lt(b, a) then b else a
  }

  /** `Le` is a total order, and `Max` and `Min` are its least upper and greatest lower
      bounds. */
  lemma OrdemTotal(a: Valor, b: Valor, c: Valor)
    ensures Le(a, a)
    ensures Le(a, b) || Le(b, a)
    ensures Le(a, b) && Le(b, a) ==> a == b
    ensures Le(a, b) && Le(b, c) ==> Le(a, c)
    ensures Le(a, Max(a, b)) && Le(b, Max(a, b)) && (Max(a, b) == a || Max(a, b) == b)
    ensures Le(Min(a, b), a) && Le(Min(a, b), b) && (Min(a, b) == a || Min(a, b) == b)
  {
  }

  lemma MaxAssoc(a: Valor, b: Valor, c: Valor)
    ensures Max(Max(a, b), c) == Max(a, Max(b, c))
    ensures Min(Min(a, b), c) == Min(a, Min(b, c))
  {
  }

  // ---------------------------------------------------------------------------
  // Trees, the pruned search and plain minimax

  /** A searched position: its score by `_avaliar`, and the subtrees of its moves in
      the order the search tries them (none at a leaf). */
  datatype Arvore = No(avaliacao: real, filhos: seq<Arvore>)

  /** The value a search returns and how much it adds to `nos_explorados`,
      `cortes_alfa` and `cortes_beta`. */
  datatype Resultado = Resultado(valor: Valor, nos: nat, cortesAlfa: nat, cortesBeta: nat)

  /** `_minimax` on a node with window (alfa, beta): a leaf is scored, an inner node
      runs the MAX or MIN loop over its children; either way the node counts once. */
  function AB(a: Arvore, alfa: Valor, beta: Valor, maximizando: bool): Resultado
    decreases a, 1
  {
    if a.filhos == [] then Resultado(Fin(a.avaliacao), 1, 0, 0)
    else
      var r := if maximizando then LacoMax(a, 0, alfa, beta, MenosInf)
               else LacoMin(a, 0, alfa, beta, MaisInf);
      r.(nos := r.nos + 1)
  }

  /** The MAX loop from child `i` on, with the current `alfa` and `valor`; a break
      counts one beta cut. */
  function LacoMax(a: Arvore, i: nat, alfa: Valor, beta: Valor, valor: Valor): Resultado
    requires i <= |a.filhos|
    decreases a, 0, |a.filhos| - i
  {
    if i == |a.filhos| then Resultado(valor, 0, 0, 0)
    else
      var c := AB(a.filhos[i], alfa, beta, false);
      var valor2 := Max(valor, c.valor);
      var alfa2 := Max(alfa, valor2);
      if Le(beta, alfa2) then Resultado(valor2, c.nos, c.cortesAlfa, c.cortesBeta + 1)
      else
        var resto := LacoMax(a, i + 1, alfa2, beta, valor2);
        Resultado(resto.valor, c.nos + resto.nos, c.cortesAlfa + resto.cortesAlfa, c.cortesBeta + resto.cortesBeta)
  }

  /** The MIN loop from child `i` on; a break counts one alpha cut. */
  function LacoMin(a: Arvore, i: nat, alfa: Valor, beta: Valor, valor: Valor): Resultado
    requires i <= |a.filhos|
    decreases a, 0, |a.filhos| - i
  {
    if i == |a.filhos| then Resultado(valor, 0, 0, 0)
    else
      var c := AB(a.filhos[i], alfa, beta, true);
      var valor2 := Min(valor, c.valor);
      var beta2 := Min(beta, valor2);
      if Le(beta2, alfa) then Resultado(valor2, c.nos, c.cortesAlfa + 1, c.cortesBeta)
      else
        var resto := LacoMin(a, i + 1, alfa, beta2, valor2);
        Resultado(resto.valor, c.nos + resto.nos, c.cortesAlfa + resto.cortesAlfa, c.cortesBeta + resto.cortesBeta)
  }

  /** Plain minimax: the score at a leaf, the best child for the side to move
      elsewhere. */
  function MM(a: Arvore, maximizando: bool): Valor
    decreases a, 1
  {
    if a.filhos == [] then Fin(a.avaliacao)
    else if maximizando then MaxFilhos(a, 0)
    else MinFilhos(a, 0)
  }

  /** The largest minimax value among the children `i ..` of a MAX node. */
  function MaxFilhos(a: Arvore, i: nat): Valor
    requires i <= |a.filhos|
    decreases a, 0, |a.filhos| - i
  {
    if i == |a.filhos| then MenosInf
    else Max(MM(a.filhos[i], false), MaxFilhos(a, i + 1))
  }

  /** The smallest minimax value among the children `i ..` of a MIN node. */
  function MinFilhos(a: Arvore, i: nat): Valor
    requires i <= |a.filhos|
    decreases a, 0, |a.filhos| - i
  {
    if i == |a.filhos| then MaisInf
    else Min(MM(a.filhos[i], true), MinFilhos(a, i + 1))
  }

  /** Minimax picks a child: the value of an inner MAX node is one of its children's
      values and at least every one of them, and dually at a MIN node. */
  lemma MMEscolhe(a: Arvore, maximizando: bool)
    requires a.filhos != []
    ensures exists i :: 0 <= i < |a.filhos| && MM(a, maximizando) == MM(a.filhos[i], !maximizando)
    ensures forall i :: 0 <= i < |a.filhos| ==>
      if maximizando then Le(MM(a.filhos[i], false), MM(a, true)) else Le(MM(a, false), MM(a.filhos[i], true))
  {
    if maximizando {
      MaxFilhosEscolhe(a, 0);
    } else {
      MinFilhosEscolhe(a, 0);
    }
  }

  lemma {:induction false} MaxFilhosEscolhe(a: Arvore, i: nat)
    requires i < |a.filhos|
    ensures exists j :: i <= j < |a.filhos| && MaxFilhos(a, i) == MM(a.filhos[j], false)
    ensures forall j :: i <= j < |a.filhos| ==> Le(MM(a.filhos[j], false), MaxFilhos(a, i))
    decreases |a.filhos| - i
  {
    if i + 1 < |a.filhos| {
      MaxFilhosEscolhe(a, i + 1);
      var j :| i + 1 <= j < |a.filhos| && MaxFilhos(a, i + 1) == MM(a.filhos[j], false);
      if MaxFilhos(a, i) != MM(a.filhos[i], false) {
        assert MaxFilhos(a, i) == MM(a.filhos[j], false);
      } else {
        assert MaxFilhos(a, i) == MM(a.filhos[i], false);
      }
      forall k | i <= k < |a.filhos|
        ensures Le(MM(a.filhos[k], false), MaxFilhos(a, i))
      {
        OrdemTotal(MM(a.filhos[k], false), MaxFilhos(a, i + 1), MaxFilhos(a, i));
      }
    } else {
      assert MaxFilhos(a, i) == MM(a.filhos[i], false);
    }
  }

  lemma {:induction false} MinFilhosEscolhe(a: Arvore, i: nat)
    requires i < |a.filhos|
    ensures exists j :: i <= j < |a.filhos| && MinFilhos(a, i) == MM(a.filhos[j], true)
    ensures forall j :: i <= j < |a.filhos| ==> Le(MinFilhos(a, i), MM(a.filhos[j], true))
    decreases |a.filhos| - i
  {
    if i + 1 < |a.filhos| {
      MinFilhosEscolhe(a, i + 1);
      var j :| i + 1 <= j < |a.filhos| && MinFilhos(a, i + 1) == MM(a.filhos[j], true);
      if MinFilhos(a, i) != MM(a.filhos[i], true) {
        assert MinFilhos(a, i) == MM(a.filhos[j], true);
      } else {
        assert MinFilhos(a, i) == MM(a.filhos[i], true);
      }
      forall k | i <= k < |a.filhos|
        ensures Le(MinFilhos(a, i), MM(a.filhos[k], true))
      {
        OrdemTotal(MinFilhos(a, i), MinFilhos(a, i + 1), MM(a.filhos[k], true));
      }
    } else {
      assert MinFilhos(a, i) == MM(a.filhos[i], true);
    }
  }

  // ---------------------------------------------------------------------------
  // Fail-soft alpha-beta against minimax

  /** The fail-soft contract of a search with window (alfa, beta) returning `r` where
      the true value is `v`: at or below alfa `r` bounds `v` from above, at or above
      beta from below, and strictly inside the window it is exact. */
  predicate FailSoft(alfa: Valor, beta: Valor, r: Valor, v: Valor)
  {
    && (Le(r, alfa) ==> Le(v, r))
    && (Le(beta, r) ==> Le(r, v))
    && (Lt(alfa, r) && Lt(r, beta) ==> r == v)
  }

  /** The invariant of the MAX loop: `prev` is the true maximum of the children done so
      far, `valor` the loop's own maximum, `a0` the window's original lower end and
      `alfa` its current one. */
  predicate InvMax(a0: Valor, alfa: Valor, beta: Valor, valor: Valor, prev: Valor)
  {
    Le(prev, valor) && (Lt(a0, valor) ==> Le(valor, prev)) && alfa == Max(a0, valor) && Lt(alfa, beta)
  }

  /** The invariant of the MIN loop, dual to `InvMax`. */
  predicate InvMin(b0: Valor, alfa: Valor, beta: Valor, valor: Valor, prev: Valor)
  {
    Le(valor, prev) && (Lt(valor, b0) ==> Le(prev, valor)) && beta == Min(b0, valor) && Lt(alfa, beta)
  }

  /** One child of a MAX node: either the loop breaks with a value at or above beta
      that the child's true value bounds from above, or the invariant carries over. */
  lemma PassoMax(a0: Valor, alfa: Valor, beta: Valor, valor: Valor, prev: Valor, r: Valor, v: Valor)
    requires InvMax(a0, alfa, beta, valor, prev)
    requires FailSoft(alfa, beta, r, v)
    ensures Lt(a0, beta)
    ensures Le(beta, Max(alfa, Max(valor, r))) ==> Le(beta, Max(valor, r)) && Le(Max(valor, r), v)
    ensures !Le(beta, Max(alfa, Max(valor, r))) ==>
      InvMax(a0, Max(alfa, Max(valor, r)), beta, Max(valor, r), Max(prev, v))
  {
  }

  lemma PassoMin(b0: Valor, alfa: Valor, beta: Valor, valor: Valor, prev: Valor, r: Valor, v: Valor)
    requires InvMin(b0, alfa, beta, valor, prev)
    requires FailSoft(alfa, beta, r, v)
    ensures Lt(alfa, b0)
    ensures Le(Min(beta, Min(valor, r)), alfa) ==> Le(Min(valor, r), alfa) && Le(v, Min(valor, r))
    ensures !Le(Min(beta, Min(valor, r)), alfa) ==>
      InvMin(b0, alfa, Min(beta, Min(valor, r)), Min(valor, r), Min(prev, v))
  {
  }

  /** A beta cut returns a value the true maximum bounds from above, whatever the
      children left unsearched are worth. */
  lemma CorteMax(a0: Valor, beta: Valor, r: Valor, v: Valor, resto: Valor, prev: Valor)
    requires Lt(a0, beta) && Le(beta, r) && Le(r, v)
    ensures FailSoft(a0, beta, r, Max(prev, Max(v, resto)))
  {
  }

  lemma CorteMin(alfa: Valor, b0: Valor, r: Valor, v: Valor, resto: Valor, prev: Valor)
    requires Lt(alfa, b0) && Le(r, alfa) && Le(v, r)
    ensures FailSoft(alfa, b0, r, Min(prev, Min(v, resto)))
  {
  }

  lemma FimMax(a0: Valor, alfa: Valor, beta: Valor, valor: Valor, prev: Valor)
    requires InvMax(a0, alfa, beta, valor, prev)
    ensures FailSoft(a0, beta, valor, Max(prev, MenosInf))
  {
  }

  lemma FimMin(b0: Valor, alfa: Valor, beta: Valor, valor: Valor, prev: Valor)
    requires InvMin(b0, alfa, beta, valor, prev)
    ensures FailSoft(alfa, b0, valor, Min(prev, MaisInf))
  {
  }

  /** Fail-soft alpha-beta: for any window with alfa < beta, the value `_minimax`
      returns obeys the fail-soft contract against plain minimax. */
  lemma {:induction false} ABFailSoft(a: Arvore, alfa: Valor, beta: Valor, maximizando: bool)
    requires Lt(alfa, beta)
    ensures FailSoft(alfa, beta, AB(a, alfa, beta, maximizando).valor, MM(a, maximizando))
    decreases a, 1
  {
    if a.filhos != [] {
      if maximizando {
        LacoMaxFailSoft(a, 0, alfa, alfa, beta, MenosInf, MenosInf);
        assert Max(MenosInf, MaxFilhos(a, 0)) == MaxFilhos(a, 0);
      } else {
        LacoMinFailSoft(a, 0, beta, alfa, beta, MaisInf, MaisInf);
        assert Min(MaisInf, MinFilhos(a, 0)) == MinFilhos(a, 0);
      }
    }
  }

  lemma {:induction false} LacoMaxFailSoft(a: Arvore, i: nat, a0: Valor, alfa: Valor, beta: Valor, valor: Valor, prev: Valor)
    requires i <= |a.filhos|
    requires InvMax(a0, alfa, beta, valor, prev)
    ensures FailSoft(a0, beta, LacoMax(a, i, alfa, beta, valor).valor, Max(prev, MaxFilhos(a, i)))
    decreases a, 0, |a.filhos| - i
  {
    if i == |a.filhos| {
      FimMax(a0, alfa, beta, valor, prev);
    } else {
      var c := AB(a.filhos[i], alfa, beta, false);
      var v := MM(a.filhos[i], false);
      var resto := MaxFilhos(a, i + 1);
      ABFailSoft(a.filhos[i], alfa, beta, false);
      PassoMax(a0, alfa, beta, valor, prev, c.valor, v);
      var valor2 := Max(valor, c.valor);
      var alfa2 := Max(alfa, valor2);
      if Le(beta, alfa2) {
        CorteMax(a0, beta, valor2, v, resto, prev);
      } else {
        LacoMaxFailSoft(a, i + 1, a0, alfa2, beta, valor2, Max(prev, v));
        MaxAssoc(prev, v, resto);
      }
    }
  }

  lemma {:induction false} LacoMinFailSoft(a: Arvore, i: nat, b0: Valor, alfa: Valor, beta: Valor, valor: Valor, prev: Valor)
    requires i <= |a.filhos|
    requires InvMin(b0, alfa, beta, valor, prev)
    ensures FailSoft(alfa, b0, LacoMin(a, i, alfa, beta, valor).valor, Min(prev, MinFilhos(a, i)))
    decreases a, 0, |a.filhos| - i
  {
    if i == |a.filhos| {
      FimMin(b0, alfa, beta, valor, prev);
    } else {
      var c := AB(a.filhos[i], alfa, beta, true);
      var v := MM(a.filhos[i], true);
      var resto := MinFilhos(a, i + 1);
      ABFailSoft(a.filhos[i], alfa, beta, true);
      PassoMin(b0, alfa, beta, valor, prev, c.valor, v);
      var valor2 := Min(valor, c.valor);
      var beta2 := Min(beta, valor2);
      if Le(beta2, alfa) {
        CorteMin(alfa, b0, valor2, v, resto, prev);
      } else {
        LacoMinFailSoft(a, i + 1, b0, alfa, beta2, valor2, Min(prev, v));
        MaxAssoc(prev, v, resto);
      }
    }
  }

  /** With the full window the search returns exactly the minimax value. */
  lemma ABJanelaCompleta(a: Arvore, maximizando: bool)
    ensures AB(a, MenosInf, MaisInf, maximizando).valor == MM(a, maximizando)
  {
    ABFailSoft(a, MenosInf, MaisInf, maximizando);
    ABFinito(a, MenosInf, MaisInf, maximizando);
  }

  /** The true value inside the window is found exactly; outside it the result is on
      the same side of the window. */
  lemma ABJanela(a: Arvore, alfa: Valor, beta: Valor, maximizando: bool)
    requires Lt(alfa, beta)
    ensures var r, v := AB(a, alfa, beta, maximizando).valor, MM(a, maximizando);
      && (Lt(alfa, v) && Lt(v, beta) ==> r == v)
      && (Le(v, alfa) ==> Le(r, alfa))
      && (Le(beta, v) ==> Le(beta, r))
  {
    ABFailSoft(a, alfa, beta, maximizando);
  }

  // ---------------------------------------------------------------------------
  // Finite values and the counters

  /** Every search returns a finite score: a leaf its evaluation, an inner node the
      best of at least one child. */
  lemma {:induction false} ABFinito(a: Arvore, alfa: Valor, beta: Valor, maximizando: bool)
    ensures AB(a, alfa, beta, maximizando).valor.Fin?
    decreases a, 1
  {
    if a.filhos != [] {
      if maximizando {
        LacoMaxFinito(a, 0, alfa, beta, MenosInf);
      } else {
        LacoMinFinito(a, 0, alfa, beta, MaisInf);
      }
    }
  }

  lemma {:induction false} LacoMaxFinito(a: Arvore, i: nat, alfa: Valor, beta: Valor, valor: Valor)
    requires i <= |a.filhos|
    requires valor.Fin? || (valor == MenosInf && i < |a.filhos|)
    ensures LacoMax(a, i, alfa, beta, valor).valor.Fin?
    decreases a, 0, |a.filhos| - i
  {
    if i < |a.filhos| {
      var c := AB(a.filhos[i], alfa, beta, false);
      ABFinito(a.filhos[i], alfa, beta, false);
      var valor2 := Max(valor, c.valor);
      if !Le(beta, Max(alfa, valor2)) {
        LacoMaxFinito(a, i + 1, Max(alfa, valor2), beta, valor2);
      }
    }
  }

  lemma {:induction false} LacoMinFinito(a: Arvore, i: nat, alfa: Valor, beta: Valor, valor: Valor)
    requires i <= |a.filhos|
    requires valor.Fin? || (valor == MaisInf && i < |a.filhos|)
    ensures LacoMin(a, i, alfa, beta, valor).valor.Fin?
    decreases a, 0, |a.filhos| - i
  {
    if i < |a.filhos| {
      var c := AB(a.filhos[i], alfa, beta, true);
      ABFinito(a.filhos[i], alfa, beta, true);
      var valor2 := Min(valor, c.valor);
      if !Le(Min(beta, valor2), alfa) {
        LacoMinFinito(a, i + 1, alfa, Min(beta, valor2), valor2);
      }
    }
  }

  /** A leaf is scored without recursion and counts one node and no cut. */
  lemma ABFolha(a: Arvore, alfa: Valor, beta: Valor, maximizando: bool)
    requires a.filhos == []
    ensures AB(a, alfa, beta, maximizando) == Resultado(Fin(a.avaliacao), 1, 0, 0)
    ensures MM(a, maximizando) == Fin(a.avaliacao)
  {
  }

  /** Every search counts its own node, and at most one cut per inner node: the cuts
      are fewer than the nodes. */
  lemma {:induction false} ABCortes(a: Arvore, alfa: Valor, beta: Valor, maximizando: bool)
    ensures var r := AB(a, alfa, beta, maximizando); r.cortesAlfa + r.cortesBeta < r.nos
    decreases a, 1
  {
    if a.filhos != [] {
      if maximizando {
        LacoMaxCortes(a, 0, alfa, beta, MenosInf);
      } else {
        LacoMinCortes(a, 0, alfa, beta, MaisInf);
      }
    }
  }

  lemma {:induction false} LacoMaxCortes(a: Arvore, i: nat, alfa: Valor, beta: Valor, valor: Valor)
    requires i <= |a.filhos|
    ensures var r := LacoMax(a, i, alfa, beta, valor); r.cortesAlfa + r.cortesBeta <= r.nos
    decreases a, 0, |a.filhos| - i
  {
    if i < |a.filhos| {
      var c := AB(a.filhos[i], alfa, beta, false);
      ABCortes(a.filhos[i], alfa, beta, false);
      var valor2 := Max(valor, c.valor);
      if !Le(beta, Max(alfa, valor2)) {
        LacoMaxCortes(a, i + 1, Max(alfa, valor2), beta, valor2);
      }
    }
  }

  lemma {:induction false} LacoMinCortes(a: Arvore, i: nat, alfa: Valor, beta: Valor, valor: Valor)
    requires i <= |a.filhos|
    ensures var r := LacoMin(a, i, alfa, beta, valor); r.cortesAlfa + r.cortesBeta <= r.nos
    decreases a, 0, |a.filhos| - i
  {
    if i < |a.filhos| {
      var c := AB(a.filhos[i], alfa, beta, true);
      ABCortes(a.filhos[i], alfa, beta, true);
      var valor2 := Min(valor, c.valor);
      if !Le(Min(beta, valor2), alfa) {
        LacoMinCortes(a, i + 1, alfa, Min(beta, valor2), valor2);
      }
    }
  }

  /** The number of nodes of the tree. */
  function Tamanho(a: Arvore): nat
    decreases a, 1
  {
    1 + Tamanhos(a, 0)
  }

  /** The number of nodes in the subtrees of children `i ..`. */
  function Tamanhos(a: Arvore, i: nat): nat
    requires i <= |a.filhos|
    decreases a, 0, |a.filhos| - i
  {
    if i == |a.filhos| then 0 else Tamanho(a.filhos[i]) + Tamanhos(a, i + 1)
  }

  /** Pruning only skips nodes: `nos_explorados` grows by at most the size of the
      tree, and by exactly that when no cut happens. */
  lemma {:induction false} ABNos(a: Arvore, alfa: Valor, beta: Valor, maximizando: bool)
    ensures var r := AB(a, alfa, beta, maximizando);
      && r.nos <= Tamanho(a)
      && (r.cortesAlfa + r.cortesBeta == 0 ==> r.nos == Tamanho(a))
    decreases a, 1
  {
    if a.filhos != [] {
      if maximizando {
        LacoMaxNos(a, 0, alfa, beta, MenosInf);
      } else {
        LacoMinNos(a, 0, alfa, beta, MaisInf);
      }
    }
  }

  lemma {:induction false} LacoMaxNos(a: Arvore, i: nat, alfa: Valor, beta: Valor, valor: Valor)
    requires i <= |a.filhos|
    ensures var r := LacoMax(a, i, alfa, beta, valor);
      && r.nos <= Tamanhos(a, i)
      && (r.cortesAlfa + r.cortesBeta == 0 ==> r.nos == Tamanhos(a, i))
    decreases a, 0, |a.filhos| - i
  {
    if i < |a.filhos| {
      var c := AB(a.filhos[i], alfa, beta, false);
      ABNos(a.filhos[i], alfa, beta, false);
      var valor2 := Max(valor, c.valor);
      if !Le(beta, Max(alfa, valor2)) {
        LacoMaxNos(a, i + 1, Max(alfa, valor2), beta, valor2);
      }
    }
  }

  lemma {:induction false} LacoMinNos(a: Arvore, i: nat, alfa: Valor, beta: Valor, valor: Valor)
    requires i <= |a.filhos|
    ensures var r := LacoMin(a, i, alfa, beta, valor);
      && r.nos <= Tamanhos(a, i)
      && (r.cortesAlfa + r.cortesBeta == 0 ==> r.nos == Tamanhos(a, i))
    decreases a, 0, |a.filhos| - i
  {
    if i < |a.filhos| {
      var c := AB(a.filhos[i], alfa, beta, true);
      ABNos(a.filhos[i], alfa, beta, true);
      var valor2 := Min(valor, c.valor);
      if !Le(Min(beta, valor2), alfa) {
        LacoMinNos(a, i + 1, alfa, Min(beta, valor2), valor2);
      }
    }
  }
}
