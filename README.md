# Jogo da Onça — engine, search, referee and input check, in Dafny

The Jogo da Onça is played on a board of 31 cells: a 5x5 square (rows 1-5) and a
triangle below it (row 6: columns 2-4; row 7: columns 1, 3, 5). One jaguar (`o`)
faces fourteen dogs (`c`). The jaguar captures by jumping over dogs, and it wins once
at most nine dogs are left. The dogs win by leaving the jaguar without a move.

This project models four parts of the Python program.

- **The game state, `EstadoJogo` (onca_py/jogo.py).**
  - The neighbour table.
  - The initial board, and reading a board from its nine-line text.
  - Counting dogs and locating the pieces.
  - The terminal test and the winner.
  - Step generation for both sides, and recursive capture-chain generation for the
    jaguar.
  - Move application, and the text forms of a board and of a move.

  The rules are functions over a board value (module `Jogo`, with `Topologia`,
  `Abertura` and `JogoTexto`). The class `Estado.EstadoJogo` holds the board in a
  field and runs the same rules as loops. Each of its methods is proved equal to the
  function that states the rule.
- **The adversarial search, `BuscaAdversarial` (onca_py/busca.py).** Module
  `AlfaBeta` states `_minimax` on an explicit game tree:
  - `AB` gives the value the pruned search returns, and the node and cut counts it
    adds.
  - `MM` is plain minimax over the same tree.

  The pruned value is proved fail-soft with respect to `MM`, and exact for the full
  window. Module `Busca` builds the tree the engine searches from a board, using:
  - the move ordering (`Ordenacao`): a stable sort, proved to be a permutation that
    puts the best-scored moves first;
  - the evaluation (`Avaliacao`).

  The class `Busca.BuscaAdversarial` runs `melhor_movimento` and `_minimax` as
  methods over the counters. These methods are proved equal to the tree functions.
- **The referee (onca_py/controlador.py).** It covers `parse`, `pos_valida`,
  `mov_possivel`, `aplica` and `vitoria`, with `POS` and `OUTRO`. The referee works on
  the board text. Its rules are compared with the engine's:
  - they agree on every jump off row 7;
  - they disagree on specific moves, which are exhibited.
- **The human player's format check (`validar_entrada`, onca_py/player_humano.py).**

Module `Texto` holds the parts of Python's string library these formats rely on:
`split()`, `split(sep)`, `join`, `strip()`, `int()` and `str()`.

The search runs without a time limit (`tempo_limite=None`), so `tempo_esgotado` is
always false and the search's only input is the board.

## Model

| member | source | states |
|---|---|---|
| Topologia.TabelaChaves | onca_py/jogo.py:10-48 | a dictionary literal has as keys exactly the keys its entries write |
| Topologia.TabelaValor | onca_py/jogo.py:10-48 | with distinct keys, each key of a dictionary literal maps to the list its entry writes |
| Topologia.EntradasChaves | onca_py/jogo.py:10-48 | the neighbour table has 31 entries, written row by row in the order of the cell list |
| Topologia.ChavesTabela | onca_py/jogo.py:10-48 | the keys of `ADJACENCIAS` are exactly the 31 listed cells |
| Topologia.NumerosDasCelulas | onca_py/jogo.py:10-48 | each cell's place in the row-major cell list is given by a closed formula |
| Topologia.CelulasDistintas | onca_py/jogo.py:10-48 | the 31 cells are pairwise distinct |
| Topologia.FormaDasCelulas | onca_py/jogo.py:10-48 | a position is a key of `ADJACENCIAS` iff it lies on the grid: rows 1-5 with columns 1-5, row 6 with columns 2-4, or row 7 with columns 1, 3 and 5 |
| Topologia.CelulasNaGrade | onca_py/jogo.py:10-48 | every listed cell lies on the grid |
| Topologia.CelulaNaLista | onca_py/jogo.py:10-48 | every grid cell occurs in the cell list at its computed place |
| Topologia.ListaDasCelulas | onca_py/jogo.py:10-48 | the cell list holds each key of the table once and nothing else |
| Topologia.EntradasBoas | onca_py/jogo.py:10-48 | each listed neighbour is another grid cell, at most one row and two columns away |
| Topologia.VizinhoEhCelula | onca_py/jogo.py:10-48 | a neighbour of `p` is a cell different from `p`, with `\|dl\| <= 1` and `\|dc\| <= 2` |
| Topologia.VizinhosDaEntrada | onca_py/jogo.py:10-48 | `ADJACENCIAS.get(p)` of a listed cell is the list its entry writes |
| Topologia.GrauMaximo | onca_py/jogo.py:10-48 | no position has more than eight listed neighbours |
| Topologia.VizinhosDoCentro | onca_py/jogo.py:22 | the centre (3, 3) has its eight neighbours, in table order |
| Abertura.CaesIniciaisForma | onca_py/jogo.py:62-67 | the opening dog cells are the grid cells of rows 1-3 other than (3, 3) |
| Abertura.CatorzeCaes | onca_py/jogo.py:62-67 | the game opens with 14 dogs |
| Jogo.ContarCachorros | onca_py/jogo.py:108-110 | the number of cells holding `c`; `Jogo.CachorrosApos` and `Jogo.ContagemAposCadeia` state how moves change it |
| Jogo.PosicaoOnca | onca_py/jogo.py:112-117 | the first cell, in table order, holding `o`; `Jogo.OncaUnica` states it is the only jaguar on a well-formed board |
| Jogo.PrimeiraCom | onca_py/jogo.py:112-117 | the first match of a scan holds the piece; no match means no listed cell holds it |
| Jogo.PosicoesCachorros | onca_py/jogo.py:119-121 | the cells holding `c`, in table order, as `Jogo.ComPeca` states |
| Jogo.SaltoValido | onca_py/jogo.py:231-261 | the geometric hop rule; `Jogo.SaltoValidoCasos` states its cases |
| Jogo.MovimentosCachorros | onca_py/jogo.py:151-167 | the dogs' steps; `Jogo.MovimentosCachorrosSpec` states exactly which moves it holds |
| Jogo.Saltos | onca_py/jogo.py:194-229 | the recursive chain generator; `Jogo.SaltosSpec` states exactly which chains it yields |
| Jogo.MovimentosOnca | onca_py/jogo.py:169-192 | the jaguar's steps followed by its chains; `Jogo.MovimentosOncaSpec` states exactly which moves it holds |
| Jogo.Movimentos | onca_py/jogo.py:144-149 | the jaguar's moves for `o` and the dogs' moves for any other side |
| Jogo.ComPeca | onca_py/jogo.py:119-121 | the filtered list holds exactly the scanned cells that hold the piece |
| Jogo.SaltoValidoCasos | onca_py/jogo.py:231-261 | `_salto_valido` holds iff the jumped cell is the midpoint and either (a) it is the four-column jump along row 7, or (b) it is a 2x2 diagonal jump from an even cell that respects the exceptions at rows 5, 6 and 7; an orthogonal jump off row 7 is always refused |
| Jogo.PassosDeSpec | onca_py/jogo.py:155-165 | the neighbour loop yields exactly the steps from `o` to an empty listed neighbour that pass the parity filter |
| Jogo.PassosCachorrosSpec | onca_py/jogo.py:151-167 | over a list of origins, the steps are exactly the legal steps from one of those origins |
| Jogo.MovimentosCachorrosSpec | onca_py/jogo.py:151-167 | a move is generated for the dogs iff it is a step from a cell holding a dog to an empty listed neighbour through the parity filter |
| Jogo.SaltosSpec | onca_py/jogo.py:194-229 | the recursive generator yields exactly the paths that extend the current path by one or more legal hops over distinct dogs not yet captured |
| Jogo.SaltosViaSpec | onca_py/jogo.py:202-227 | one loop turn yields exactly the chains whose first new hop jumps that neighbour |
| Jogo.SaltosViaLegal | onca_py/jogo.py:210-227 | when the jump is legal, the turn yields the jump and then every chain from its landing cell |
| Jogo.PrimeiroSalto | onca_py/jogo.py:202-227 | a chain whose first new hop jumps `v` starts with the legal jump over `v`, and `v` is never jumped again |
| Jogo.Continuacao | onca_py/jogo.py:222-227 | after its first jump a chain either stops or hops over a neighbour of the landing cell |
| Jogo.SaltoEstendido | onca_py/jogo.py:218-227 | conversely, the jump alone or the jump followed by a legal chain is a chain of that turn |
| Jogo.MovimentosOncaSpec | onca_py/jogo.py:169-192 | a move is generated for the jaguar iff it is a legal step or a capture chain from the jaguar's cell; with no jaguar there is none |
| Jogo.PrefixoGerado | onca_py/jogo.py:222-227 | every prefix of two or more cells of a generated chain is itself a generated chain |
| Jogo.Aplicar | onca_py/jogo.py:263-290 | the board after a move; `Jogo.AplicarPasso` and `Jogo.AplicarCadeia` state what it writes |
| Jogo.MeiosAteProximo | onca_py/jogo.py:277-285 | the midpoint loop adds the midpoint of one hop per turn |
| Jogo.TamanhoMeiosAte | onca_py/jogo.py:277-285 | the hops of a chain jump pairwise distinct cells, one per hop |
| Jogo.ApagarMeiosSpec | onca_py/jogo.py:277-285 | the midpoint loop blanks exactly the jumped cells and leaves the rest |
| Jogo.CadeiaCaptura | onca_py/jogo.py:194-229 | a chain captures only dogs, one distinct dog per hop, so it has at most as many hops as there are dogs |
| Jogo.CapturadosSaoCaes | onca_py/jogo.py:208-212 | every cell a chain jumps holds a dog |
| Jogo.AplicarCadeia | onca_py/jogo.py:273-288 | playing a chain empties its start, removes every jumped dog, puts the jaguar on the last cell, changes nothing else, and lowers the dog count by the number of hops |
| Jogo.CachorrosAposCadeia | onca_py/jogo.py:273-288 | after a chain the dogs are the old dogs minus the captured ones |
| Jogo.ContagemAposCadeia | onca_py/jogo.py:273-288 | after a chain `contar_cachorros` drops by the number of hops |
| Jogo.AplicarCadeiaCelulas | onca_py/jogo.py:273-288 | cell by cell, what a chain writes on the board |
| Jogo.CachorrosApos | onca_py/jogo.py:273-288 | a capture leaves the dogs minus the captured cells |
| Jogo.OncasApos | onca_py/jogo.py:273-288 | a capture moves the jaguar from its start to its landing cell |
| Jogo.Escrever | onca_py/jogo.py:270-271 | writing one cell changes the dog and jaguar sets at that cell only |
| Jogo.MoverCachorro | onca_py/jogo.py:268-271 | a dog step moves that dog, keeps the count and leaves the jaguar in place |
| Jogo.MoverOnca | onca_py/jogo.py:268-271 | a jaguar step moves the jaguar and leaves the dogs in place |
| Jogo.AplicarPasso | onca_py/jogo.py:268-271 | a step from a cell holding the mover to an empty cell empties the origin, fills the target, changes nothing else and keeps the dog count |
| Jogo.OncaUnica | onca_py/jogo.py:112-117 | on a well-formed board `posicao_onca` finds the only jaguar |
| Jogo.ValidoApos | onca_py/jogo.py:263-290 | a board that keeps the cells, holds only pieces and has one jaguar is well formed |
| Jogo.PreservaCachorro | onca_py/jogo.py:151-167 | a generated dog move applies without error, keeps the board well formed and keeps the dog count |
| Jogo.PreservaOnca | onca_py/jogo.py:169-192 | a generated jaguar move applies without error and keeps the board well formed; a step keeps the count, a chain lowers it by its hops |
| Jogo.PreservaOncaPasso | onca_py/jogo.py:268-271 | a jaguar step onto an empty cell keeps the board well formed and the dog count |
| Jogo.PreservaOncaCadeia | onca_py/jogo.py:273-288 | a jaguar chain keeps the board well formed and lowers the count by its hops |
| Jogo.ValidoAposCadeia | onca_py/jogo.py:273-288 | a capture result with one jaguar is a well-formed board |
| Jogo.MovimentoPreservaValido | onca_py/jogo.py:144-149 | every move `gerar_movimentos` yields on a well-formed board can be applied, and the result is well formed with the dog count changed by exactly the captures |
| Jogo.PassoEhMovimento | onca_py/jogo.py:169-192 | every legal step of the jaguar is generated |
| Jogo.SaltoEhMovimento | onca_py/jogo.py:169-192 | every legal single hop of the jaguar is generated |
| Jogo.MovimentoComeca | onca_py/jogo.py:169-192 | every jaguar move begins with a legal step or a legal hop |
| Jogo.OncaBloqueada | onca_py/jogo.py:169-192 | the jaguar has no move iff it is absent or has neither a legal step nor a legal first hop |
| Jogo.Vencedor | onca_py/jogo.py:134-142 | the winner of a board, if any; `Jogo.VencedorSpec` states when each side wins |
| Jogo.EhTerminal | onca_py/jogo.py:123-132 | a board is terminal iff it has a winner |
| Jogo.VencedorSpec | onca_py/jogo.py:123-142 | the jaguar wins iff at most nine dogs remain; the dogs win iff more remain and the jaguar can neither step nor jump; no winner iff `eh_terminal` is false |
| Jogo.TabuleiroInicial | onca_py/jogo.py:58-75 | the opening board; `Jogo.TabuleiroInicialSpec` states its layout |
| Jogo.CaoInicial | onca_py/jogo.py:58-75 | the opening dogs stand on the grid cells of rows 1-3 other than (3, 3) |
| Jogo.InicialCachorros | onca_py/jogo.py:58-75 | the opening dog set is the fixed layout |
| Jogo.InicialOnca | onca_py/jogo.py:67 | the jaguar opens alone on (3, 3) |
| Jogo.InicialValido | onca_py/jogo.py:58-75 | the opening board is well formed |
| Jogo.InicialContagem | onca_py/jogo.py:58-75 | the opening board holds 14 dogs |
| Jogo.InicialPasso | onca_py/jogo.py:58-75 | at the opening the jaguar can step to (4, 3) |
| Jogo.InicialJogavel | onca_py/jogo.py:58-75 | nobody has won at the opening |
| Jogo.TabuleiroInicialSpec | onca_py/jogo.py:58-75 | the opening board has all 31 cells, the jaguar alone on (3, 3), dogs exactly on rows 1-3 elsewhere, 14 dogs, and no winner |
| JogoTexto.TextoTabuleiro | onca_py/jogo.py:309-330 | the board text; `JogoTexto.TextoNaPosicao` states its layout |
| JogoTexto.LerTabuleiro | onca_py/jogo.py:77-100 | the board read from a text; `JogoTexto.LerTextoTabuleiro` states it inverts `TextoTabuleiro` |
| JogoTexto.MovimentoParaString | onca_py/jogo.py:292-307 | the move line; `JogoTexto.MovimentoPalavras` and `Controlador.InterpretarMovimento` state it reads back |
| JogoTexto.CelulasAte | onca_py/jogo.py:316-325 | the column loop writes one character per column, the piece or its filler |
| JogoTexto.LinhasAte | onca_py/jogo.py:311-327 | the lines written so far are the border and then one line per row |
| JogoTexto.Coordenadas | onca_py/jogo.py:304 | each cell is written as its row word and then its column word |
| JogoTexto.MovimentoEmPalavras | onca_py/jogo.py:292-307 | a written move is its words joined by single spaces, each word a token |
| JogoTexto.MovimentoPalavras | onca_py/jogo.py:292-307 | splitting a written move gives back its words, and it has nothing to strip |
| JogoTexto.PreencheSpec | onca_py/jogo.py:89-98 | the cells of a row filled so far are exactly its first columns |
| JogoTexto.LerCelulas | onca_py/jogo.py:89-98 | reading `#` and the first written columns of a row copies exactly those cells and advances the column |
| JogoTexto.LerCelula | onca_py/jogo.py:92-98 | reading the character written for a column copies the cell when it is one, mapping a space back to `-` |
| JogoTexto.LerLinhaTexto | onca_py/jogo.py:86-98 | reading a written row copies its five columns and ignores the border |
| JogoTexto.PreencheLinhasSpec | onca_py/jogo.py:82-98 | the rows filled so far are exactly the cells of those rows |
| JogoTexto.LerLinhasTexto | onca_py/jogo.py:82-98 | reading the written lines up to line `n` fills rows `1 .. n-1` |
| JogoTexto.LinhaTextoForma | onca_py/jogo.py:315-326 | a written row has seven characters, `#` at both ends and no newline |
| JogoTexto.TextoNaPosicao | onca_py/jogo.py:309-330 | `para_string` writes 72 characters, with row `l`, column `c` at index `8l + c` |
| JogoTexto.StripTexto | onca_py/jogo.py:80 | `strip()` removes only the final newline of a written board |
| JogoTexto.LinhasDoTexto | onca_py/jogo.py:80 | splitting the stripped board text at newlines gives back the nine written lines |
| JogoTexto.LerTextoTabuleiro | onca_py/jogo.py:77-100 | round trip: `_parse_tabuleiro(para_string())` gives back every board that has the 31 cells |
| Texto.Strip | onca_py/controlador.py:37 | `strip()`; `Texto.StripLeft` and `Texto.StripRight` state what it removes |
| Texto.ParseInt | onca_py/controlador.py:54-55 | `int()` on one word; `Texto.IntToStringRoundTrip` states it inverts `str` |
| Texto.WordLen | onca_py/controlador.py:37 | the first word runs up to the first white space |
| Texto.Words | onca_py/controlador.py:37 | `split()` yields non-empty words without white space |
| Texto.WordsOfUnwords | onca_py/jogo.py:300-305 | splitting words joined by single spaces gives the words back |
| Texto.StripLeft | onca_py/controlador.py:37 | `lstrip()` removes exactly the leading white space: the result is a suffix that does not start with white space, and every character removed is white space |
| Texto.StripRight | onca_py/controlador.py:37 | `rstrip()` removes exactly the trailing white space: the result is a prefix that does not end with white space, and every character removed is white space |
| Texto.StripUnwords | onca_py/jogo.py:300-305 | words joined by spaces have nothing to strip |
| Texto.Split | onca_py/jogo.py:80 | `split(sep)` always yields at least one piece |
| Texto.SplitOfJoin | onca_py/jogo.py:80 | splitting pieces joined by a separator they do not contain gives them back |
| Texto.NatToStringDigits | onca_py/jogo.py:300 | `str(n)` of a natural number is a non-empty run of digits whose value is `n` |
| Texto.IntToStringRoundTrip | onca_py/controlador.py:54-55 | `int(str(i)) == i`, and `str(i)` is one word |
| Estado.EstadoJogo.constructor | onca_py/jogo.py:50-56 | the new state holds the opening board when no text is given, and otherwise the board read from the text |
| Estado.EstadoJogo.MontarInicial | onca_py/jogo.py:58-75 | the row loops build the opening board |
| Estado.EstadoJogo.PreencherLinha | onca_py/jogo.py:62-65 | the column loop writes the piece on every cell of the row and nothing else |
| Estado.EstadoJogo.MesmasChaves | onca_py/jogo.py:58-75 | a board with the opening's cells and pieces is the opening board |
| Estado.EstadoJogo.LerTexto | onca_py/jogo.py:77-100 | the loops of `_parse_tabuleiro` compute the board read from the text |
| Estado.EstadoJogo.LerLinhasDoTexto | onca_py/jogo.py:82-98 | the line loop skips line 0 and lines from 8 on, and reads the others as rows |
| Estado.EstadoJogo.LerLinhaDoTexto | onca_py/jogo.py:86-98 | the character loop fills a row with a running column |
| Estado.EstadoJogo.Copiar | onca_py/jogo.py:102-106 | the copy is a new object holding the same board |
| Estado.EstadoJogo.GerarMovimentos | onca_py/jogo.py:144-149 | the generated list is the side's moves, as characterised by the two generator lemmas |
| Estado.EstadoJogo.GerarMovimentosCachorros | onca_py/jogo.py:151-167 | the loop over dog cells yields the dogs' legal steps |
| Estado.EstadoJogo.PassosVizinhos | onca_py/jogo.py:155-165 | the neighbour loop yields the legal steps from one cell |
| Estado.EstadoJogo.GerarMovimentosOnca | onca_py/jogo.py:169-192 | the jaguar's steps followed by its capture chains |
| Estado.EstadoJogo.GerarSaltosRecursivos | onca_py/jogo.py:194-229 | the recursive loop yields exactly the chains `Jogo.SaltosSpec` characterises |
| Estado.EstadoJogo.AplicarMovimento | onca_py/jogo.py:263-290 | returns a new object whose board is the move played on a copy, and leaves the receiver unchanged |
| Estado.EstadoJogo.ParaString | onca_py/jogo.py:309-330 | writes the board text that `JogoTexto.LerTextoTabuleiro` reads back |
| Estado.EstadoJogo.EscreverLinha | onca_py/jogo.py:315-326 | the column loop writes row `l` as `#`, five characters, `#` |
| Ordenacao.Pontuacao | onca_py/busca.py:166-205 | the priority of a move; `Ordenacao.CapturasPrimeiro` and `Ordenacao.PontuacaoCachorro` state its order |
| Ordenacao.Ordenar | onca_py/busca.py:161-207 | the moves sorted by falling priority; `Ordenacao.OrdenarSpec` states the result |
| Ordenacao.CapturasPrimeiro | onca_py/busca.py:170-184 | for the jaguar on the board's cells, any chain outscores any step, and a longer chain outscores every shorter one |
| Ordenacao.PontuacaoCachorro | onca_py/busca.py:186-203 | a dog move scores 0, 30, 50 or 80; it scores at least 50 iff the dog moves down; the 30 needs a jaguar on the board |
| Ordenacao.InserePermuta | onca_py/busca.py:207 | inserting one element adds exactly it to the multiset |
| Ordenacao.OrdenarPorPermuta | onca_py/busca.py:207 | the sort is a permutation of its input |
| Ordenacao.InsereCrescente | onca_py/busca.py:207 | insertion keeps the keys non-decreasing |
| Ordenacao.OrdenarPorCrescente | onca_py/busca.py:207 | the sorted keys never decrease |
| Ordenacao.ComChaveInsere | onca_py/busca.py:207 | inserting puts the element after those of equal key |
| Ordenacao.OrdenarPorEstavel | onca_py/busca.py:207 | the sort is stable: the elements of each key keep their input order |
| Ordenacao.OrdenacaoUnica | onca_py/busca.py:207 | two sorted lists with the same elements, in the same order under every key, are equal |
| Ordenacao.OrdenarPorCaracterizado | onca_py/busca.py:207 | every stable sort by the key, Python's `sorted` among them, returns the list this sort returns |
| Ordenacao.OrdenarSpec | onca_py/busca.py:161-207 | `_ordenar_movimentos` returns a permutation of the moves, with scores that never increase and equal scores in input order |
| Ordenacao.MovimentosOrdenaveis | onca_py/busca.py:166-205 | every generated move has the shape `prioridade` unpacks, and can be applied |
| Avaliacao.Avaliar | onca_py/busca.py:209-230 | the score of a board for a side; `Avaliacao.AvaliarSpec` states its cases |
| Avaliacao.AvaliarOnca | onca_py/busca.py:232-278 | the jaguar's heuristic; `Avaliacao.NotaOncaLimites` and `Avaliacao.BloqueioPesa` state how blocking weighs in it |
| Avaliacao.AvaliarCachorros | onca_py/busca.py:280-340 | the dogs' heuristic; `Avaliacao.NotaCaesBloqueio` states its floor when the jaguar is blocked |
| Avaliacao.CaesEntre | onca_py/busca.py:272-276 | the neighbour count is at most the number of neighbours |
| Avaliacao.Capturas | onca_py/busca.py:261 | the count of chains is at most the number of moves |
| Avaliacao.AvaliarSpec | onca_py/busca.py:209-230 | a finished game scores +10000 iff the side has won and -10000 iff the other side has; an unfinished one gets the side's heuristic |
| Avaliacao.MaterialMonotono | onca_py/busca.py:236-243 | each dog lost is worth at least 500 to the jaguar, and costs the dogs at least 300 (onca_py/busca.py:285-290) |
| Avaliacao.CaesEntreSpec | onca_py/busca.py:305-317 | the neighbour count equals the number of neighbours iff all of them hold dogs, and is 0 iff none does |
| Avaliacao.ProporcaoCercadaSpec | onca_py/busca.py:319-323 | the encirclement share lies in [0, 1], and is 1 iff every neighbour holds a dog |
| Avaliacao.NotaOncaLimites | onca_py/busca.py:232-278 | with no jaguar move the jaguar's score is at most its material minus 4969; with a move it is at least its material minus 197 |
| Avaliacao.BloqueioPesa | onca_py/busca.py:249-258 | for the same dog count, a blocked jaguar scores at least 4772 below a jaguar that can move |
| Avaliacao.NotaCaesBloqueio | onca_py/busca.py:292-298 | a blocked jaguar gives the dogs at least 11000 above their material: the full mobility term and the 10000 bonus |
| AlfaBeta.AB | onca_py/busca.py:92-159 | the pruned search on a tree; `AlfaBeta.ABFailSoft` and `AlfaBeta.ABJanelaCompleta` relate it to `MM` |
| AlfaBeta.MM | onca_py/busca.py:92-159 | plain minimax, the reference the pruned search is proved against |
| AlfaBeta.OrdemTotal | onca_py/busca.py:84-88 | the comparison of scores with infinities is a total order |
| AlfaBeta.MaxAssoc | onca_py/busca.py:133 | `max` over scores is associative |
| AlfaBeta.MMEscolhe | onca_py/busca.py:126-159 | minimax at an inner node takes the value of one of its children, and is at least (MAX) or at most (MIN) every child's value |
| AlfaBeta.MaxFilhosEscolhe | onca_py/busca.py:126-142 | the maximum over the children is attained and bounds each of them |
| AlfaBeta.MinFilhosEscolhe | onca_py/busca.py:143-159 | the minimum over the children is attained and bounds each of them |
| AlfaBeta.ABFailSoft | onca_py/busca.py:92-159 | for every window `alfa < beta`, the pruned value is fail-soft: exact inside the window, and outside it a bound on the same side as the true value |
| AlfaBeta.LacoMaxFailSoft | onca_py/busca.py:126-142 | the MAX loop, with its beta cut, keeps the fail-soft relation to the maximum over the children |
| AlfaBeta.LacoMinFailSoft | onca_py/busca.py:143-159 | the MIN loop, with its alpha cut, keeps the fail-soft relation to the minimum over the children |
| AlfaBeta.ABJanelaCompleta | onca_py/busca.py:92-159 | with the window (-inf, +inf) the search returns exactly the minimax value |
| AlfaBeta.ABJanela | onca_py/busca.py:92-159 | a true value strictly inside the window is found exactly; at or below `alfa` the result is at most `alfa`; at or above `beta` it is at least `beta` |
| AlfaBeta.ABFinito | onca_py/busca.py:92-159 | the search never returns an infinity |
| AlfaBeta.ABFolha | onca_py/busca.py:107-121 | a leaf returns its evaluation, counts one node and no cut |
| AlfaBeta.ABCortes | onca_py/busca.py:138-157 | cuts are fewer than nodes visited |
| AlfaBeta.ABNos | onca_py/busca.py:107 | pruning only skips nodes: the count is at most the tree size, and equals it when nothing is cut |
| Busca.ArvoreDe | onca_py/busca.py:107-159 | the tree `_minimax` searches from a board; `Busca.ArvoreDeSpec` states its nodes |
| Busca.Melhor | onca_py/busca.py:32-90 | the result of `melhor_movimento`; `Busca.MelhorValor` and `Busca.MelhorNenhum` state it |
| Busca.Jogadas | onca_py/busca.py:117-124 | the moves searched at a node are the generated moves, in sort order and all applicable |
| Busca.ArvoreDeSpec | onca_py/busca.py:107-159 | every node of the searched tree is scored by `_avaliar`; it is a leaf iff depth is 0, the game is over or the side to move has no move; otherwise its children are the boards after each generated move, in sort order, for the other side |
| Busca.MinimaxFolha | onca_py/busca.py:107-121 | where `_minimax` does not recurse it counts one node and returns `_avaliar` |
| Busca.ArvoreRaiz | onca_py/busca.py:57-82 | the root at a depth has one child per generated move |
| Busca.RaizSpec | onca_py/busca.py:68-88 | one depth of the root loop leaves the best value at the maximum of the old best and every child's true value; a move is replaced only by one whose value was found exactly |
| Busca.PassoRaiz | onca_py/busca.py:75-88 | one root child: replacing on a strictly greater value gives `max(best, true value)`, replacements use exact values, and `alfa <= best` carries over |
| Busca.AprofundarSpec | onca_py/busca.py:53-88 | the deepening loop ends with a move whose value is the best root value over all depths, and exact for its child at one of them |
| Busca.EscolhidoCresce | onca_py/busca.py:53-88 | a move chosen at some depth up to `p` is also chosen at some depth up to any larger `q` |
| Busca.MelhorNenhum | onca_py/busca.py:53-60 | `melhor_movimento` returns `None` iff no depth is searched or the side has no move |
| Busca.MelhorValor | onca_py/busca.py:32-90 | the returned move is one of the side's moves; `melhor_valor`, never reset between depths, ends as the best root value over all depths and is the exact minimax value of that move's child at one of them |
| Busca.ArvoreRaizSpec | onca_py/busca.py:57-88 | off a finished game the root is the tree `_minimax` would search at a MAX node; each child's value is at most the root's minimax value |
| Busca.BuscaAdversarial.constructor | onca_py/busca.py:11-24 | stores the depth bound; the counters start at 0 |
| Busca.BuscaAdversarial.MelhorMovimento | onca_py/busca.py:32-90 | returns the move of the deepening search, and leaves in the counters the nodes and cuts of all depths |
| Busca.BuscaAdversarial.BuscarRaiz | onca_py/busca.py:65-88 | the root loop keeps the first move of strictly greatest value and raises `alfa` |
| Busca.BuscaAdversarial.Minimax | onca_py/busca.py:92-159 | returns the pruned value of the board's tree and adds that search's nodes, alpha cuts and beta cuts to the counters |
| Busca.BuscaAdversarial.RamoMax | onca_py/busca.py:126-142 | the MAX loop returns the loop value and adds its counts to the counters |
| Busca.BuscaAdversarial.PassoMax | onca_py/busca.py:133-140 | one MAX turn raises `valor` and `alfa`, and on `beta <= alfa` counts a beta cut and stops |
| Busca.BuscaAdversarial.RamoMin | onca_py/busca.py:143-159 | the MIN loop returns the loop value and adds its counts to the counters |
| Busca.BuscaAdversarial.PassoMin | onca_py/busca.py:150-157 | one MIN turn lowers `valor` and `beta`, and on `beta <= alfa` counts an alpha cut and stops |
| Busca.BuscaAdversarial.BuscarFilho | onca_py/busca.py:132-135 | searching one child adds exactly that subtree's counts |
| Controlador.OutroTroca | onca_py/controlador.py:7 | `OUTRO` swaps the two sides and is its own inverse |
| Controlador.PosValida | onca_py/controlador.py:73-77 | the grid test of `pos_valida`; `Controlador.PosValidaCelula` states it matches the engine's cells |
| Controlador.MovPossivel | onca_py/controlador.py:79-103 | the referee's move geometry; `Controlador.MovPossivelPasso` and `Controlador.MovPossivelSalto` state its cases |
| Controlador.PosValidaCelula | onca_py/controlador.py:73-77 | `pos_valida` holds exactly on the cells of the engine's table |
| Controlador.IndiceValido | onca_py/controlador.py:8 | `POS` maps the valid positions injectively into the indices 9 .. 61 |
| Controlador.TextoNoIndice | onca_py/controlador.py:8 | character `POS(l, c)` of the engine's board text is the piece on (l, c) |
| Controlador.MovPossivelExige | onca_py/controlador.py:79-103 | a possible move has two valid, distinct endpoints and type `m` or `s` |
| Controlador.MovPossivelPasso | onca_py/controlador.py:85-93 | a step is possible iff it is the two-column step along row 7, or a one-cell step (orthogonal from an odd cell) that respects the rules at rows 5-7 |
| Controlador.MovPossivelSalto | onca_py/controlador.py:94-101 | a hop is possible iff it is the four-column jump along row 7, or a 2x2 diagonal jump from an even cell that respects the exceptions; orthogonal hops off row 7 are refused |
| Controlador.SaltoForaDaLinha7 | onca_py/controlador.py:94-101 | off row 7 the referee's hop rule and the engine's `_salto_valido` (onca_py/jogo.py:231-261) agree |
| Controlador.SaltosDivergentes | onca_py/controlador.py:98-100 | on row 7 they differ: the engine allows (7,3) to (5,1) and the referee refuses it; the referee allows (5,3) to (7,1) and the engine refuses it |
| Controlador.PassoDivergente | onca_py/controlador.py:89 | the engine lets a piece step from (5,2) to (6,2), and the referee refuses that step |
| Controlador.LerPares | onca_py/controlador.py:63-67 | a successful read of `k` pairs gives `k` rows and `k` columns |
| Controlador.Parse | onca_py/controlador.py:36-71 | computes `parse` on the stripped, split line |
| Controlador.LerCoordenadas | onca_py/controlador.py:63-69 | the coordinate loop reads the pairs, or fails at the first missing or malformed token |
| Controlador.Interpretar | onca_py/controlador.py:36-71 | `parse`; `Controlador.InterpretarForma` and `Controlador.InterpretarMovimento` state its results |
| Controlador.InterpretarForma | onca_py/controlador.py:36-71 | an empty line or an unknown side or type fails; on success the side is `c`/`o` and the counts match the type: 1 move and 2 coordinates for `m`, `n >= 1` hops and `n + 1` coordinates for `s`, none for `n` |
| Controlador.Linhas | onca_py/controlador.py:65 | the rows of a list of cells, in order |
| Controlador.Colunas | onca_py/controlador.py:66 | the columns of a list of cells, in order |
| Controlador.LerParesFalha | onca_py/controlador.py:68-69 | once a pair fails, reading more pairs fails too |
| Controlador.LerParesEscritos | onca_py/controlador.py:63-67 | pairs written as integers are read back |
| Controlador.LerParesCoordenadas | onca_py/controlador.py:63-67 | the coordinates of a written move are read back as its rows and columns |
| Controlador.InterpretarMovimento | onca_py/controlador.py:36-71 | round trip: `parse(movimento_para_string(lado, m))` gives back the side, the type, the hop count and every coordinate (onca_py/jogo.py:292-307) |
| Controlador.InterpretarPasso | onca_py/controlador.py:50-57 | a written step parses back to its cells |
| Controlador.InterpretarSaltos | onca_py/controlador.py:58-69 | a written chain parses back to its hop count and cells |
| Controlador.InterpretarCadeia | onca_py/controlador.py:58-69 | a chain line whose count and pairs read back parses to them |
| Controlador.ContaAtualiza | onca_py/controlador.py:142 | overwriting one character changes `count` by what left and what came in |
| Controlador.Pulo | onca_py/controlador.py:125-136 | one hop keeps the board length |
| Controlador.Aplica | onca_py/controlador.py:105-138 | copies the text into a list, plays the move in place and joins it; computes `aplica`, or `None` for a refused move |
| Controlador.JogarSaltos | onca_py/controlador.py:124-136 | the hop loop plays each hop on the board as updated so far, and stops at the first refused hop |
| Controlador.JogarPulo | onca_py/controlador.py:125-136 | one pass makes the three checks, then the three writes |
| Controlador.AplicaSpec | onca_py/controlador.py:105-138 | `aplica` on values; `Controlador.AplicaPasso` and `Controlador.AplicaSaltos` state its results |
| Controlador.CadeiaForaDoTexto | onca_py/controlador.py:119-122 | `parse` accepts the chain line `o s 1 9 9 7 3`, whose first cell (9, 9) has index 81; on a 72-character board `aplica` would read that index before checking any hop, so the input lies outside `AplicaDefinida` |
| Controlador.AplicaPasso | onca_py/controlador.py:108-117 | `n` leaves the board as it is; a step is played iff it is possible, starts on the mover and ends on `-`, and it then changes those two characters and no other |
| Controlador.SaltoTocaTres | onca_py/controlador.py:128-135 | the three cells a hop touches are distinct valid indices |
| Controlador.SaltarConta | onca_py/controlador.py:124-136 | every hop the loop plays removes exactly one dog; the text keeps its length |
| Controlador.PuloConta | onca_py/controlador.py:125-136 | a hop from the jaguar's cell removes one dog and leaves the jaguar on the landing cell |
| Controlador.TresEscritas | onca_py/controlador.py:135 | the three writes of a hop remove one dog and place the jaguar |
| Controlador.AplicaSaltos | onca_py/controlador.py:118-136 | a chain is played only for the jaguar and from a cell holding `o`; when played, the board keeps its length and loses exactly one dog per hop |
| Controlador.Venceu | onca_py/controlador.py:140-155 | `vitoria`; `Controlador.Vitoria` states when each side wins |
| Controlador.VitoriaSemPassoLateral | onca_py/controlador.py:147-153 | the victory scan declares the dogs winners on a board where the jaguar on (7, 1) can still make the two-column step to (7, 3) that `mov_possivel` accepts (onca_py/controlador.py:85) |
| Controlador.Vitoria | onca_py/controlador.py:140-155 | the jaguar wins iff at most nine `c` remain; for any other side, the dogs win iff no jaguar cell has a possible step onto `-` or hop over `c` onto `-` among the 3x3 offsets (i, j in -1..1), which never test the row-7 sideways step or hop |
| Controlador.MovimentoLivre | onca_py/controlador.py:147-153 | the offset loops find a free step or hop iff one exists among the 3x3 offsets (i, j in -1..1), which never test the row-7 sideways step or hop |
| JogadorHumano.ValidarEntrada | onca_py/player_humano.py:73-108 | `validar_entrada`; `JogadorHumano.ValidarEntradaTipos`, `ValidarPasso` and `ValidarSalto` state which lines it accepts |
| JogadorHumano.ValidarEntradaTipos | onca_py/player_humano.py:73-108 | an empty line is refused; `n` is accepted whatever follows; any other type than `m`, `s` is refused; a verdict is `True` iff its reason is passing or a valid format |
| JogadorHumano.ValidarPasso | onca_py/player_humano.py:84-93 | a step is accepted iff it has exactly four more words, all integers, rows in 1..7 and columns in 1..5 |
| JogadorHumano.ValidarSalto | onca_py/player_humano.py:95-106 | a chain is accepted iff the side is the jaguar, there are at least four words, the second is an integer `k`, and there are `2(k+1)` coordinate words; for the dogs the reason is always that only the jaguar jumps |
| JogadorHumano.LinhaDeEntrada | onca_py/player_humano.py:74 | a line of words joined by spaces splits back into them |
| JogadorHumano.MovimentoDigitadoAceito | onca_py/player_humano.py:73-108 | every step between two cells, and every jaguar chain through two or more cells, typed in the documented format, passes the check |
| JogadorHumano.PassoDigitado | onca_py/player_humano.py:84-93 | a step between two grid cells, typed as documented, passes |
| JogadorHumano.SaltoDigitado | onca_py/player_humano.py:95-106 | a jaguar chain with its hop count and `2(k+1)` coordinates passes |

## Left out

- Reading and writing the board through Redis, `inicia`, `main`, and the console
  interface (tutorial, prompts, board display) are I/O. They are not modelled.
- The clock: the search is modelled with `tempo_limite=None`, so `tempo_esgotado` is
  always false and its breaks never fire. `inicio_busca` is not kept. `obter_estatisticas`
  only reports the three counters, which are modelled, plus elapsed time.
- `hash_posicao` depends on Python's `hash` of a tuple, which the model cannot see.
- Avaliacao.AvaliarCachorros: `proporcao_cercada * 200` is a float in the source. It is
  modelled as exact real arithmetic, with no rounding.
- AlfaBeta.Valor: `float('-inf')` and `float('+inf')` are modelled as two extra values
  around the exact scores. Score comparisons are exact.
- The dead counter `posicoes_adjacentes_ocupadas` in `_avaliar_cachorros` is
  computed but never read. It is not modelled.
- Dictionary order: `posicao_onca`, `posicoes_cachorros` and the evaluation loops scan
  the 31 cells in row-major order. That is the insertion order of every board the
  program builds (the opening board and `_parse_tabuleiro`).
  - A key off the table can only be added by applying a move that `gerar_movimentos`
    does not generate, such as a step to (9, 9). Such a key is not scanned. Every
    generated move lands on table cells (`Jogo.MovimentoPreservaValido`).
  - `contar_cachorros` is modelled exactly, in any order.
- Texto.ParseInt: Python's `int()` also accepts non-ASCII Unicode digits. The model
  accepts an optional sign and ASCII digits with single underscores.
- JogadorHumano.ValidarEntrada: the message texts are modelled as values of `Motivo`.
  The number of hops appears in the `SaltoContagemErrada` reason.
- Controlador.Interpretar: `parse` of a one-word line raises `IndexError` on
  `parts[1]`, which is not caught. The function therefore requires the line not to be
  one word.
- Controlador.Parse: the method has the same requirement as
  `Controlador.Interpretar`, for the same reason.
- Controlador.Aplica: its requirement `AplicaDefinida` asks for a board text of at
  least 62 characters and coordinate lists as long as the move type reads. It also asks
  that a jaguar chain's first cell indexes the text. Every input on which `aplica`
  raises `IndexError` is excluded by this. Some inputs on which it returns without
  raising are excluded too, and the model says nothing about them:
  - `n` on a text shorter than 62 characters (line 108 returns the text unchanged);
  - an impossible `m` on a short text (line 112 returns before indexing);
  - `s` for the dogs with short lists (line 119 returns before indexing);
  - a chain with fewer coordinates than its hop count that is refused before the
    missing coordinates are read (lines 122, 126, 129 and 133).

  The referee always passes a 72-character board, so the short-text cases never arise
  there. It does pass `aplica` whatever `parse` returns, though, and `parse` accepts a
  jaguar chain whose first cell lies off the board. On such a chain, `aplica` reads
  `tab_list[POS(l, c)]` at line 122 before it checks any hop. When that index falls
  outside the 72 characters, the source raises an `IndexError`. The referee's loop
  catches only `TypeError` (line 195), so the error ends the referee.
  `Controlador.CadeiaForaDoTexto` shows one such line, `o s 1 9 9 7 3`, which the
  model leaves outside `AplicaDefinida`. Python's negative indexing of the first chain
  cell, from -72 to -1, is modelled.
- Controlador.AplicaSpec: the function has the same requirement `AplicaDefinida` as
  `Controlador.Aplica`, and says nothing about the excluded inputs listed there.
- Controlador.JogarSaltos, Controlador.JogarPulo: the loops inside `aplica` share its
  requirement of a board text of at least 62 characters. `JogarSaltos` also needs
  `num_mov` coordinates after the first.
- Controlador.Vitoria: requires a board text of at least 62 characters, which every
  board the referee handles has.
- Controlador.Venceu, Controlador.MovimentoLivre: the same requirement of at least 62
  characters, for the same reason. Both follow the 3x3 offset scan as written. The
  scan does not try the two-column step or the four-column hop along row 7, so the
  dogs can be declared winners while the jaguar still has such a move
  (`Controlador.VitoriaSemPassoLateral`).
- Estado.EstadoJogo.AplicarMovimento: requires a well-formed move, because the
  source's tuple unpacking raises on a step without exactly two cells. Every generated
  move is well formed (`Jogo.MovimentoPreservaValido`).
- JogoTexto.MovimentoParaString: requires a well-formed move, for the same reason.
- Ordenacao.Pontuacao: requires a well-formed move, for the same reason.
- The engine and the referee disagree on some moves (`Controlador.SaltosDivergentes`,
  `Controlador.PassoDivergente`). Both are modelled as written. Nothing in the program
  says which of the two rule sets is intended.
- The root loop of `melhor_movimento` does not test for a finished game, unlike
  `_minimax`. This is modelled as written (`Busca.ArvoreRaizSpec`).
