/** `EstadoJogo` as the source keeps it: an object whose `tabuleiro` field holds the
    board. Its builders, generators, move application and board writer run the loops
    of jogo.py, and each is proved to compute the rule function of `Jogo` or
    `JogoTexto` that states what it means. */
module Estado {
  import opened Wrappers
  import opened Texto
  import opened Topologia
  import opened Jogo
  import opened JogoTexto

  class EstadoJogo {
    var tabuleiro: Tabuleiro

    /** `EstadoJogo(tabuleiro_str)`: the initial board when no text is given,
        otherwise the board read from the text. */
    constructor (tabuleiroStr: Option<string>)
      ensures tabuleiro == match tabuleiroStr
        case None => TabuleiroInicial()
        case Some(s) => LerTabuleiro(s)
    {
      var tab: Tabuleiro;
      if tabuleiroStr.None? {
        tab := MontarInicial();
      } else {
        tab := LerTexto(tabuleiroStr.value);
      }
      tabuleiro := tab;
    }

    /** `_tabuleiro_inicial`: dogs on the cells of rows 1-3, the jaguar put on (3, 3),
        then the cells of rows 4-7 left empty. */
    static method MontarInicial() returns (tab: Tabuleiro)
      ensures tab == TabuleiroInicial()
    {
      tab := map[];
      for l := 1 to 4
        invariant forall p :: p in tab <==> p in ADJACENCIAS && 1 <= p.l < l && 1 <= p.c <= 5
        invariant forall p :: p in tab ==> tab[p] == 'c'
      {
        tab := PreencherLinha(tab, l, 'c');
      }
      assert Pos(3, 3) in ADJACENCIAS by {
        FormaDasCelulas(Pos(3, 3));
      }
      tab := tab[Pos(3, 3) := 'o'];
      for l := 4 to 8
        invariant forall p :: p in tab <==> p in ADJACENCIAS && 1 <= p.l < l && 1 <= p.c <= 5
        invariant forall p :: p in tab ==> tab[p] == if p == Pos(3, 3) then 'o' else if p.l <= 3 then 'c' else '-'
      {
        tab := PreencherLinha(tab, l, '-');
      }
      MesmasChaves(tab);
    }

    /** The column loop of `_tabuleiro_inicial`: `peca` on every cell of row `l`. */
    static method PreencherLinha(inicio: Tabuleiro, l: int, peca: char) returns (tab: Tabuleiro)
      ensures forall p :: p in tab <==> p in inicio || NaFaixa(p, l, 6)
      ensures forall p :: p in tab ==> tab[p] == if NaFaixa(p, l, 6) then peca else inicio[p]
    {
      tab := inicio;
      for c := 1 to 6
        invariant forall p :: p in tab <==> p in inicio || NaFaixa(p, l, c)
        invariant forall p :: p in tab ==> tab[p] == if NaFaixa(p, l, c) then peca else inicio[p]
      {
        if Pos(l, c) in ADJACENCIAS {
          tab := tab[Pos(l, c) := peca];
        }
      }
    }

    /** A board holding every cell of rows 1-7, columns 1-5 as the initial board does
        is the initial board. */
    static lemma MesmasChaves(tab: Tabuleiro)
      requires forall p :: p in tab <==> p in ADJACENCIAS && 1 <= p.l < 8 && 1 <= p.c <= 5
      requires forall p :: p in tab ==> tab[p] == if p == Pos(3, 3) then 'o' else if p.l <= 3 then 'c' else '-'
      ensures tab == TabuleiroInicial()
    {
      forall p | p in ADJACENCIAS
        ensures 1 <= p.l <= 7 && 1 <= p.c <= 5
      {
        FormaDasCelulas(p);
      }
      assert tab.Keys == TabuleiroInicial().Keys;
    }

    /** `_parse_tabuleiro`: strip, split at newlines, and read rows 1-7 character by
        character with a running column. */
    static method LerTexto(texto: string) returns (tab: Tabuleiro)
      ensures tab == LerTabuleiro(texto)
    {
      var linhas := Split(Strip(texto), '\n');
      tab := LerLinhasDoTexto(linhas);
    }

    /** The line loop of `_parse_tabuleiro`: line 0 and lines from 8 on are skipped. */
    static method LerLinhasDoTexto(linhas: seq<string>) returns (tab: Tabuleiro)
      ensures tab == LerLinhas(linhas, |linhas|)
    {
      tab := map[];
      for lIdx := 0 to |linhas|
        invariant tab == LerLinhas(linhas, lIdx)
      {
        if lIdx == 0 || lIdx >= 8 {
          continue;
        }
        var linha := linhas[lIdx];
        var c;
        tab, c := LerLinhaDoTexto(tab, lIdx, linha);
      }
    }

    /** The inner loop of `_parse_tabuleiro` over the characters of row `l`. */
    static method LerLinhaDoTexto(inicio: Tabuleiro, l: int, linha: string) returns (tab: Tabuleiro, c: int)
      ensures (tab, c) == LerLinha(inicio, l, linha)
    {
      tab, c := inicio, 1;
      for j := 0 to |linha|
        invariant (tab, c) == LerLinha(inicio, l, linha[..j])
      {
        assert linha[..j + 1][..j] == linha[..j];
        var ch := linha[j];
        if ch == '#' {
          continue;
        } else if ch == 'o' || ch == 'c' || ch == '-' || ch == ' ' {
          if Pos(l, c) in ADJACENCIAS {
            if ch == ' ' {
              tab := tab[Pos(l, c) := '-'];
            } else {
              tab := tab[Pos(l, c) := ch];
            }
          }
          c := c + 1;
        }
      }
      assert linha[..|linha|] == linha;
    }

    /** `copiar`: a new state holding the same board. */
    method Copiar() returns (novo: EstadoJogo)
      ensures fresh(novo)
      ensures novo.tabuleiro == tabuleiro
    {
      novo := new EstadoJogo(None);
      novo.tabuleiro := tabuleiro;
    }

    /** `gerar_movimentos(lado)`. */
    method GerarMovimentos(lado: char) returns (movimentos: seq<Movimento>)
      ensures movimentos == Movimentos(tabuleiro, lado)
    {
      if lado == 'o' {
        movimentos := GerarMovimentosOnca();
      } else {
        movimentos := GerarMovimentosCachorros();
      }
    }

    /** `_gerar_movimentos_cachorros`: for each dog, each empty listed neighbour the
        parity filter lets through. */
    method GerarMovimentosCachorros() returns (movimentos: seq<Movimento>)
      ensures movimentos == MovimentosCachorros(tabuleiro)
    {
      var origens := PosicoesCachorros(tabuleiro);
      movimentos := [];
      for i := 0 to |origens|
        invariant movimentos == PassosCachorros(tabuleiro, origens[..i])
      {
        var pos := origens[i];
        assert origens[..i + 1][..i] == origens[..i];
        var passos := PassosVizinhos(pos);
        movimentos := movimentos + passos;
      }
      assert origens[..|origens|] == origens;
    }

    /** The neighbour loop both step generators share. */
    method PassosVizinhos(pos: Pos) returns (passos: seq<Movimento>)
      ensures passos == PassosDe(tabuleiro, pos, Vizinhos(pos))
    {
      var viz := Vizinhos(pos);
      passos := [];
      for j := 0 to |viz|
        invariant passos == PassosDe(tabuleiro, pos, viz[..j])
      {
        var vizinho := viz[j];
        assert viz[..j + 1][..j] == viz[..j];
        if !Tem(tabuleiro, vizinho, '-') {
          continue;
        }
        var distl, distc := Abs(pos.l - vizinho.l), Abs(pos.c - vizinho.c);
        if (pos.l + pos.c) % 2 != 0 && distl + distc > 1 {
          continue;
        }
        passos := passos + [Movimento('m', [pos, vizinho])];
      }
      assert viz[..|viz|] == viz;
    }

    /** `_gerar_movimentos_onca`: the jaguar's steps, then the capture chains from its
        cell. */
    method GerarMovimentosOnca() returns (movimentos: seq<Movimento>)
      ensures movimentos == MovimentosOnca(tabuleiro)
    {
      var posOnca := PosicaoOnca(tabuleiro);
      if posOnca.None? {
        return [];
      }
      var p := posOnca.value;
      movimentos := PassosVizinhos(p);
      var saltos := GerarSaltosRecursivos(p, {}, [p]);
      movimentos := movimentos + saltos;
    }

    /** `_gerar_saltos_recursivos(pos_atual, capturados, caminho)`: every legal jump
        from `pos_atual` over an uncaptured dog, each followed by the chains that
        continue it. */
    method GerarSaltosRecursivos(posAtual: Pos, capturados: set<Pos>, caminho: seq<Pos>) returns (saltos: seq<Movimento>)
      ensures saltos == Saltos(tabuleiro, posAtual, capturados, caminho, Vizinhos(posAtual))
      decreases Cachorros(tabuleiro) - capturados
    {
      var viz := Vizinhos(posAtual);
      saltos := [];
      for j := 0 to |viz|
        invariant saltos == Saltos(tabuleiro, posAtual, capturados, caminho, viz[..j])
      {
        var vizinho := viz[j];
        assert viz[..j + 1][..j] == viz[..j];
        ghost var via := SaltosVia(tabuleiro, posAtual, capturados, caminho, vizinho);
        assert Saltos(tabuleiro, posAtual, capturados, caminho, viz[..j + 1]) == saltos + via;
        var dl, dc := vizinho.l - posAtual.l, vizinho.c - posAtual.c;
        var destino := Pos(vizinho.l + dl, vizinho.c + dc);
        assert destino == Destino(posAtual, vizinho);
        if !Tem(tabuleiro, vizinho, 'c') || vizinho in capturados
           || destino !in ADJACENCIAS || !Tem(tabuleiro, destino, '-')
           || !SaltoValido(posAtual, vizinho, destino) {
          assert via == [];
          continue;
        }
        var novoCaminho := caminho + [destino];
        var novosCapturados := capturados + {vizinho};
        assert vizinho in Cachorros(tabuleiro) - capturados;
        assert via == [Movimento('s', novoCaminho)] + Saltos(tabuleiro, destino, novosCapturados, novoCaminho, Vizinhos(destino));
        saltos := saltos + [Movimento('s', novoCaminho)];
        var continuados := GerarSaltosRecursivos(destino, novosCapturados, novoCaminho);
        saltos := saltos + continuados;
      }
      assert viz[..|viz|] == viz;
    }

    /** `aplicar_movimento(lado, movimento)`: a copy of the state with the move played
        on it; the receiver is left as it was. */
    method AplicarMovimento(lado: char, movimento: Movimento) returns (novo: EstadoJogo)
      requires BemFormado(movimento)
      ensures fresh(novo)
      ensures novo.tabuleiro == Aplicar(tabuleiro, lado, movimento)
      ensures tabuleiro == old(tabuleiro)
    {
      novo := Copiar();
      var posicoes := movimento.posicoes;
      if movimento.tipo == 'm' {
        var origem, destino := posicoes[0], posicoes[1];
        novo.tabuleiro := novo.tabuleiro[origem := '-'];
        novo.tabuleiro := novo.tabuleiro[destino := lado];
      } else if movimento.tipo == 's' {
        var origem := posicoes[0];
        novo.tabuleiro := novo.tabuleiro[origem := '-'];
        ghost var inicio := novo.tabuleiro;
        for i := 1 to |posicoes|
          invariant novo.tabuleiro == ApagarMeios(inicio, posicoes, i)
        {
          var anterior, atual := posicoes[i - 1], posicoes[i];
          var lm, cm := (anterior.l + atual.l) / 2, (anterior.c + atual.c) / 2;
          novo.tabuleiro := novo.tabuleiro[Pos(lm, cm) := '-'];
        }
        var destino := posicoes[|posicoes| - 1];
        novo.tabuleiro := novo.tabuleiro[destino := 'o'];
      }
    }

    /** `para_string`: the border line, the seven rows with `#` at both ends, the
        border line again, joined by newlines and ending with one. */
    method ParaString() returns (s: string)
      ensures s == TextoTabuleiro(tabuleiro)
    {
      var linhas := ["#######"];
      for l := 1 to 8
        invariant linhas == LinhasAte(tabuleiro, l)
      {
        var linha := EscreverLinha(l);
        linhas := linhas + [linha];
      }
      linhas := linhas + ["#######"];
      s := Join(linhas, '\n') + "\n";
    }

    /** The column loop of `para_string` for row `l`. */
    method EscreverLinha(l: int) returns (linha: string)
      ensures linha == LinhaTexto(tabuleiro, l)
    {
      linha := "#";
      for c := 1 to 6
        invariant linha == "#" + CelulasAte(tabuleiro, l, c)
      {
        if Pos(l, c) in tabuleiro {
          linha := linha + [tabuleiro[Pos(l, c)]];
        } else if l == 6 && (c == 1 || c == 5) {
          linha := linha + " ";
        } else if l == 7 && (c == 2 || c == 4) {
          linha := linha + " ";
        } else {
          linha := linha + "-";
        }
      }
      linha := linha + "#";
    }
  }
}
