/** The shipped constants: the three mock projects and the checklist catalog
    (five categories, seventy-four items). Item ids are written as
    `ItemId(prefix, n)`, which spells `prefix-NN`, so that the facts about
    the ids below follow from how they are spelled; the question texts are
    looked up by item number. */
module Constants {
  import opened Types
  import opened Checklist

  function MockProjects(): seq<Project> {
    [
      Project("proj-1", "Portal Torres de Novara", "São Paulo, SP"),
      Project("proj-2", "Residencial Vista do Vale", "Belo Horizonte, MG"),
      Project("proj-3", "Condomínio Parque das Flores", "Curitiba, PR")
    ]
  }

  /** The id `prefix-NN` of item number `n` (two digits, zero-padded). */
  function ItemId(prefix: string, n: nat): (id: string)
    requires n < 100
    ensures |id| == |prefix| + 3 && id[..|prefix|] == prefix && id[|prefix|] == '-'
    ensures '0' <= id[|prefix| + 1] <= '9' && '0' <= id[|prefix| + 2] <= '9'
    ensures (id[|prefix| + 1] as int - '0' as int) * 10 + (id[|prefix| + 2] as int - '0' as int) == n
  {
    prefix + "-" + [Digit(n / 10), Digit(n % 10)]
  }

  /** `count` items numbered from `first`, each with its question text. */
  function Numbered(prefix: string, first: nat, count: nat, text: nat -> string): (items: seq<ChecklistItem>)
    requires first + count <= 100
    ensures |items| == count
  {
    seq(count, i requires 0 <= i < count => ChecklistItem(ItemId(prefix, first + i), text(first + i)))
  }

  /** Questions of category massa, by item number (massa-01 .. massa-18). */
  function MassaText(n: nat): string {
    match n
    case 1 => "A Central de decantação de massa para lavagem de caminhão betoneira foi construída conforme projeto?"
    case 2 => "Todas as lavagens de caminhão betoneira estão sendo realizadas na Central de decantação de massa? Há lavagem sendo realizada em local inapropriado?"
    case 3 => "A Central de decantação de massa para lavagem de caminhão betoneira esta totalmente impermeabilizada? Toda efluente da lavagem esta sendo direcionado para as caixa de decantação?"
    case 4 => "As caixas de decantação da Central de decantação de massa para lavagem de caminhão betoneira estão interligadas sem vazamento e impermeabilizadas?"
    case 5 => "Na segunda caixa de decantação esta sendo utilizada brita para auxiliar o processo de filtragem?"
    case 6 => "As caixas de decantação da Central de decantação de massa para lavagem de caminhão betoneira estão fechadas e sinalizadas?"
    case 7 => "Esta sendo realizada análise do efluente gerado, após o tratamento pelas caixas de decantação? Sendo uma no início após implantação do sistema e outra após 6 (seis) meses?"
    case 8 => "O resultado das análise estão dentro dos padrões estabelecidos? Se não, foi gerando plano de ação para adequação do sistema?"
    case 9 => "O efluente gerado e dentro dos padrões estabelecidos, está sendo reaproveitado como meio de redução do consumo de água na obra?"
    case 10 => "A Central de decantação de massa para Central de Betoneira foi construída conforme projeto?"
    case 11 => "Todo concreto rodado por betoneira na obra estão sendo realizadas na Central de decantação de massa? Há concreto sendo rodado na obra em local inapropriado?"
    case 12 => "A Central de decantação de massa para Central de Betoneira esta totalmente impermeabilizada? Toda efluente da lavagem esta sendo direcionado para as caixa de decantação?"
    case 13 => "As caixas de decantação da Central de decantação de massa para Central de Betoneira estão interligadas sem vazamento e impermeabilizadas?"
    case 14 => "Na segunda caixa de decantação esta sendo utilizada brita para auxiliar o processo de filtragem?"
    case 15 => "As caixas de decantação da Central de decantação de massa para Central de Betoneira estão fechadas e sinalizadas?"
    case 16 => "Esta sendo realizada análise do efluente gerado, após o tratamento pelas caixas de decantação? Sendo uma no início após implantação do sistema e outra após 6 (seis) meses?"
    case 17 => "O resultado das análise estão dentro dos padrões estabelecidos? Se não, foi gerando plano de ação para adequação do sistema?"
    case 18 => "O efluente gerado e dentro dos padrões estabelecidos, está sendo reaproveitado como meio de redução do consumo de água na obra?"
    case _ => ""
  }

  /** Questions of category efluentes, by item number (eflu-01 .. eflu-07, eflu-09 .. eflu-17). */
  function EfluentesText(n: nat): string {
    match n
    case 1 => "Os efluentes gerados no canteiro de obras são despejados diretamente nas redes de esgoto da localidade do obra com a devida autorização dos órgãos competentes?"
    case 2 => "Quando utilizado banheiros químicos nas frentes de serviço, são mantidos registros de limpeza dos banheiros químicos, bem como toda documentação da empresa que realiza a coleta e transporte dos resíduos?"
    case 3 => "Quando para tratamento de efluentes sanitários for utilizado sistema fossa-filtro é realizado o ensaio de análise química/biológica do efluente, após o tratamento, para verificar se os parâmetros definidos estão sendo atendidos?"
    case 4 => "Quando para tratamento de efluentes sanitários for utilizado sistema fossa séptica o efluente é recolhido através de um caminhão limpa-fossas e transportada para um destino adequado (devidamente licenciado)?"
    case 5 => "São mantidos registros de limpeza da fossa séptica, bem como toda documentação da empresa que realiza a coleta e transporte dos resíduos? (Licenças e MTR ou CTR)?"
    case 6 => "Há periodicidade de limpeza da fossa séptica para que não haja transbordos?"
    case 7 => "Os efluentes sanitários gerados são armazenados em reservatórios impermeabilizados fechados sem odores e sem conter vazamentos?"
    case 9 => "O local de abastecimento de máquinas e equipamentos e locais de manutenções de máquinas são dotados de piso impermeável?"
    case 10 => "O local de abastecimento de máquinas e equipamentos e locais de manutenções de máquinas possuem caixa separadora água e óleo?"
    case 11 => "É realizada a limpeza do sistema separador de água e óleo, quando por inspeção visual, as caixas de decantação de sólidos estiverem cheias?"
    case 12 => "São mantidos registros de limpeza do separador de água e óleo, bem como toda documentação da empresa que realiza a coleta e transporte dos resíduos?"
    case 13 => "É realizada análise química do efluente, após o tratamento, para verificar se os parâmetros definidos estão sendo atendidos?"
    case 14 => "Quando houver volume de óleo significativo no sistema, ele é retirado, armazenado em tambor fechado e, posteriormente, destinado para refino."
    case 15 => "A empresa que realiza destinado para refino esta devidamente licenciada?"
    case 16 => "O local de Armazenamento do óleo são adequados com bacia de contenção, ventilação, cobertura, identificação da área, acesso restrito?"
    case 17 => "O efluente gerado e dentro dos padrões estabelecidos, está sendo reaproveitado como meio de redução do consumo de água na obra?"
    case _ => ""
  }

  /** Questions of category campo, by item number (campo-01 .. campo-16). */
  function CampoText(n: nat): string {
    match n
    case 1 => "A separação de resíduos e o armazenamento temporário estão corretos nas baias? Sem misturas de resíduos?"
    case 2 => "Areas internas dos blocos, corredores e apartamentos, estão limpas e organizadas? Sem restos de isopor, sacarias, papelão e entulhos?"
    case 3 => "Todas as torres possuem suportes e bags para separação dos resíduos?"
    case 4 => "O suporte e bags estão adequados sem estarem danificados?"
    case 5 => "Central de Resíduos possui placas de identificação conforme cada resíduo a ser disposto?"
    case 6 => "Há placas nos canteiro de obras, estimulando a coleta seletiva e limpeza do canteiro?"
    case 7 => "Esta havendo recolhimento de resíduos nas baias evitando o acúmulo?"
    case 8 => "As APPs estão delimitadas (sinalizadas), limpas e sem acesso? As placas indicativas de áreas verdes e APPs estão dispostas em local visível?"
    case 9 => "As vias no entorno da obra estão limpas? Há limpeza periódica das vias em torno da obra?"
    case 10 => "O Kit mitigação está sinalizado e disponível em local visível e de fácil acesso? Deve estar disposto na obra."
    case 11 => "Monitoramento de Fumaça Preta dos equipamentos e veículos estão realizados mensalmente?"
    case 12 => "Há resíduos dispostos fora da sua respectiva baia na central de resíduos?"
    case 13 => "Áreas externas, em volta dos blocos, estão limpas e organizadas?"
    case 14 => "As Bandejas estão sendo limpas periodicamente?"
    case 15 => "A obra possui dutos de entulho?"
    case 16 => "A área destinada em frente da torre para receber o entulho do duto esta sinalizada e delimitada?"
    case _ => ""
  }

  /** Questions of category quimicos, by item number (quim-01 .. quim-10). */
  function QuimicosText(n: nat): string {
    match n
    case 1 => "Há condições adequadas de armazenamento de produtos químicos (bacia de contenção, ventilação, cobertura, identificação da área, acesso restrito)?"
    case 2 => "A área é impermeabilizada para armazenamento de produtos químicos?"
    case 3 => "Há esvaziamento de restos das latas de tintas ou tambores antes do seu descarte?"
    case 4 => "Há Kit de emergência ambiental na proximidades em caso de derramamento/vazamentos com produtos químicos?"
    case 5 => "As Fichas de Segurança do Produto Químico (FISPQ) estão disponibilizadas nos locais que contenham os produtos químicos?"
    case 6 => "A utilização de produtos químicos está sendo realizada em piso impermeabilizado?"
    case 7 => "Os funcionários que manipulam produtos químicos foram treinados quanto aos riscos que estão expostos?"
    case 8 => "O local para armazenamento foi construído, preferencialmente, em material incombustível (ex.: alvenaria, metal etc.)."
    case 9 => "A área de estocagem esta devidamente sinalizada?"
    case 10 => "Há sistemas de contenções de vazamentos sob motores de máquinas estacionárias? Bacias de contenção compressores etc."
    case _ => ""
  }

  /** Questions of category combustivel, by item number (comb-01 .. comb-14). */
  function CombustivelText(n: nat): string {
    match n
    case 1 => "A área de abastecimento de veículos possui piso impermeabilizado?"
    case 2 => "O dique de contenção do tanque de abastecimento de veículos está ligado a uma caixa separadora de água e óleo?"
    case 3 => "A área de abastecimento de veículos possui canaleta de contenção ligada à caixa separadora de água e óleo?"
    case 4 => "O tanque de combustível possui Laudo de estanqueidade atestando sua boa condição física estrutural?"
    case 5 => "O tanque possui bacia de contenção?"
    case 6 => "A bacia de contenção possui capacidade de armazenamento de 10% a mais que o volume total do tanque?"
    case 7 => "O tanque está sobre base impermeável e em boas condições?"
    case 8 => "A área de abastecimento possui acesso restrito?"
    case 9 => "A bomba possui bloqueio de acionamento por pessoas não autorizadas?"
    case 10 => "O tanque possui indicador de nível de combustível?"
    case 11 => "O sistema de filtragem de combustível está instalado no interior da bacia de contenção?"
    case 12 => "É respeitado o raio de 7,5 m a partir da bomba de abastecimento de isolamento?"
    case 13 => "Esta sendo realizada análise do efluente gerado? Sendo uma no início após implantação do sistema e outra após 6 (seis) meses?"
    case 14 => "O resultado das análise estão dentro dos padrões estabelecidos? Se não, foi gerando plano de ação para adequação do sistema?"
    case _ => ""
  }
  function Massa(): ChecklistCategory {
    ChecklistCategory("massa", "Central de Decantação de Massa", [
      ChecklistSubCategory("Lavagem de caminhão betoneira", Numbered("massa", 1, 9, MassaText)),
      ChecklistSubCategory("Central de Massa - Betoneira", Numbered("massa", 10, 9, MassaText))
    ])
  }

  /** The sanitary subcategory stops at eflu-07 and the separator starts at eflu-09. */
  function Efluentes(): ChecklistCategory {
    ChecklistCategory("efluentes", "Efluentes Sanitários e Caixa Separadora", [
      ChecklistSubCategory("Efluentes Sanitários", Numbered("eflu", 1, 7, EfluentesText)),
      ChecklistSubCategory("Caixa Separadora Água e Óleo", Numbered("eflu", 9, 9, EfluentesText))
    ])
  }

  function Campo(): ChecklistCategory {
    ChecklistCategory("campo", "Inspeção de Campo", [
      ChecklistSubCategory("Itens Verificáveis", Numbered("campo", 1, 16, CampoText))
    ])
  }

  function Quimicos(): ChecklistCategory {
    ChecklistCategory("quimicos", "Produtos Químicos", [
      ChecklistSubCategory("Itens Verificáveis", Numbered("quim", 1, 10, QuimicosText))
    ])
  }

  function Combustivel(): ChecklistCategory {
    ChecklistCategory("combustivel", "Tanque de Combustível", [
      ChecklistSubCategory("Itens Verificáveis", Numbered("comb", 1, 14, CombustivelText))
    ])
  }

  /** CHECKLIST_DEFINITIONS */
  function ChecklistDefinitions(): seq<ChecklistCategory> {
    [Massa(), Efluentes(), Campo(), Quimicos(), Combustivel()]
  }

  /** The ids `prefix-NN` for NN from `first` to `first + count - 1`. */
  function Ids(prefix: string, first: nat, count: nat): (ids: seq<string>)
    requires first + count <= 100
    ensures |ids| == count
    ensures forall i :: 0 <= i < count ==> ids[i] == ItemId(prefix, first + i)
  {
    seq(count, i requires 0 <= i < count => ItemId(prefix, first + i))
  }

  lemma NumberedIds(prefix: string, first: nat, count: nat, text: nat -> string)
    requires first + count <= 100
    ensures ItemIds(Numbered(prefix, first, count, text)) == Ids(prefix, first, count)
  {
  }

  /** Two ids are equal only for the same prefix and number, provided the
      prefixes are equal or already differ in their first two letters. */
  lemma {:induction false} ItemIdInjective(p: string, n: nat, q: string, m: nat)
    requires n < 100 && m < 100 && |p| >= 2 && |q| >= 2
    requires p == q || p[0] != q[0] || p[1] != q[1]
    ensures ItemId(p, n) == ItemId(q, m) <==> p == q && n == m
  {
    var x, y := ItemId(p, n), ItemId(q, m);
    if x == y {
      assert x[0] == p[0] && x[1] == p[1] && y[0] == q[0] && y[1] == q[1];
      if p == q {
        assert x[|p| + 1] == Digit(n / 10) && y[|p| + 1] == Digit(m / 10);
        assert x[|p| + 2] == Digit(n % 10) && y[|p| + 2] == Digit(m % 10);
      }
    }
  }

  lemma IdsDistinct(prefix: string, first: nat, count: nat)
    requires first + count <= 100 && |prefix| >= 2
    ensures Distinct(Ids(prefix, first, count))
  {
    forall i, j | 0 <= i < j < count
      ensures Ids(prefix, first, count)[i] != Ids(prefix, first, count)[j]
    {
      ItemIdInjective(prefix, first + i, prefix, first + j);
    }
  }

  /** Blocks of ids share nothing when their prefixes differ in the first two
      letters, or when they have the same prefix and disjoint number ranges. */
  lemma IdsDisjoint(p: string, a: nat, n: nat, q: string, b: nat, m: nat)
    requires a + n <= 100 && b + m <= 100 && |p| >= 2 && |q| >= 2
    requires (p == q && a + n <= b) || p[0] != q[0] || p[1] != q[1]
    ensures forall x :: x in Ids(p, a, n) ==> x !in Ids(q, b, m)
  {
    forall i, j | 0 <= i < n && 0 <= j < m
      ensures Ids(p, a, n)[i] != Ids(q, b, m)[j]
    {
      ItemIdInjective(p, a + i, q, b + j);
    }
  }

  /** The catalog's item ids, block by block in catalog order. */
  function ShippedIdBlocks(): seq<seq<string>> {
    [Ids("massa", 1, 9), Ids("massa", 10, 9), Ids("eflu", 1, 7), Ids("eflu", 9, 9),
     Ids("campo", 1, 16), Ids("quim", 1, 10), Ids("comb", 1, 14)]
  }

  lemma ShippedCategoryItemIds()
    ensures CategoryItemIds(Massa()) == Ids("massa", 1, 9) + Ids("massa", 10, 9)
    ensures CategoryItemIds(Efluentes()) == Ids("eflu", 1, 7) + Ids("eflu", 9, 9)
    ensures CategoryItemIds(Campo()) == Ids("campo", 1, 16)
    ensures CategoryItemIds(Quimicos()) == Ids("quim", 1, 10)
    ensures CategoryItemIds(Combustivel()) == Ids("comb", 1, 14)
  {
    var m, e := Massa().subCategories, Efluentes().subCategories;
    assert CategoryItems(Massa()) == m[0].items + m[1].items by {
      assert SubItems(m[1..]) == m[1].items;
    }
    ItemIdsAppend(m[0].items, m[1].items);
    NumberedIds("massa", 1, 9, MassaText);
    NumberedIds("massa", 10, 9, MassaText);
    assert CategoryItems(Efluentes()) == e[0].items + e[1].items by {
      assert SubItems(e[1..]) == e[1].items;
    }
    ItemIdsAppend(e[0].items, e[1].items);
    NumberedIds("eflu", 1, 7, EfluentesText);
    NumberedIds("eflu", 9, 9, EfluentesText);
    assert CategoryItems(Campo()) == Campo().subCategories[0].items;
    NumberedIds("campo", 1, 16, CampoText);
    assert CategoryItems(Quimicos()) == Quimicos().subCategories[0].items;
    NumberedIds("quim", 1, 10, QuimicosText);
    assert CategoryItems(Combustivel()) == Combustivel().subCategories[0].items;
    NumberedIds("comb", 1, 14, CombustivelText);
  }

  lemma ShippedAllItems()
    ensures AllItems(ChecklistDefinitions()) == CategoryItems(Massa()) + CategoryItems(Efluentes())
      + CategoryItems(Campo()) + CategoryItems(Quimicos()) + CategoryItems(Combustivel())
  {
    var c := ChecklistDefinitions();
    assert AllItems(c[4..]) == CategoryItems(Combustivel());
    assert AllItems(c[3..]) == CategoryItems(Quimicos()) + AllItems(c[4..]) by { assert c[3..][1..] == c[4..]; }
    assert AllItems(c[2..]) == CategoryItems(Campo()) + AllItems(c[3..]) by { assert c[2..][1..] == c[3..]; }
    assert AllItems(c[1..]) == CategoryItems(Efluentes()) + AllItems(c[2..]) by { assert c[1..][1..] == c[2..]; }
  }

  lemma ShippedAllItemIds()
    ensures AllItemIds(ChecklistDefinitions()) == ShippedIdBlocks()[0] + ShippedIdBlocks()[1]
      + ShippedIdBlocks()[2] + ShippedIdBlocks()[3] + ShippedIdBlocks()[4] + ShippedIdBlocks()[5]
      + ShippedIdBlocks()[6]
  {
    ShippedAllItems();
    ShippedCategoryItemIds();
    var ms, es, cs, qs, fs := CategoryItems(Massa()), CategoryItems(Efluentes()), CategoryItems(Campo()),
      CategoryItems(Quimicos()), CategoryItems(Combustivel());
    ItemIdsAppend(ms, es);
    ItemIdsAppend(ms + es, cs);
    ItemIdsAppend(ms + es + cs, qs);
    ItemIdsAppend(ms + es + cs + qs, fs);
  }

  /** The five categories, in order, with distinct ids. */
  lemma ShippedCategories()
    ensures CategoryIds(ChecklistDefinitions()) == ["massa", "efluentes", "campo", "quimicos", "combustivel"]
    ensures Distinct(CategoryIds(ChecklistDefinitions()))
  {
    var ids := CategoryIds(ChecklistDefinitions());
    assert ids[0][0] != ids[2][0];
  }

  /** 18 / 16 / 16 / 10 / 14 items, 74 in all. */
  lemma ShippedItemCounts()
    ensures |CategoryItems(ChecklistDefinitions()[0])| == 18
    ensures |CategoryItems(ChecklistDefinitions()[1])| == 16
    ensures |CategoryItems(ChecklistDefinitions()[2])| == 16
    ensures |CategoryItems(ChecklistDefinitions()[3])| == 10
    ensures |CategoryItems(ChecklistDefinitions()[4])| == 14
    ensures |AllItems(ChecklistDefinitions())| == 74
  {
    ShippedCategoryItemIds();
    ShippedAllItems();
  }

  /** Every category has a subcategory and every subcategory an item. */
  lemma ShippedNoEmptyCategory()
    ensures forall c :: c in ChecklistDefinitions() ==>
      |c.subCategories| >= 1 && (forall sc :: sc in c.subCategories ==> |sc.items| >= 1)
  {
  }

  lemma CombQuimDistinct()
    ensures Distinct(Ids("quim", 1, 10) + Ids("comb", 1, 14))
  {
    IdsDistinct("quim", 1, 10);
    IdsDistinct("comb", 1, 14);
    IdsDisjoint("quim", 1, 10, "comb", 1, 14);
    DistinctAppend(Ids("quim", 1, 10), Ids("comb", 1, 14));
  }

  lemma FromCampoDistinct()
    ensures Distinct(Ids("campo", 1, 16) + (Ids("quim", 1, 10) + Ids("comb", 1, 14)))
  {
    CombQuimDistinct();
    IdsDistinct("campo", 1, 16);
    IdsDisjoint("campo", 1, 16, "quim", 1, 10);
    IdsDisjoint("campo", 1, 16, "comb", 1, 14);
    DistinctAppend(Ids("campo", 1, 16), Ids("quim", 1, 10) + Ids("comb", 1, 14));
  }

  lemma FromEfluentesDistinct()
    ensures Distinct((Ids("eflu", 1, 7) + Ids("eflu", 9, 9)) + (Ids("campo", 1, 16) + (Ids("quim", 1, 10) + Ids("comb", 1, 14))))
  {
    var rest := Ids("campo", 1, 16) + (Ids("quim", 1, 10) + Ids("comb", 1, 14));
    FromCampoDistinct();
    IdsDistinct("eflu", 1, 7);
    IdsDistinct("eflu", 9, 9);
    IdsDisjoint("eflu", 1, 7, "eflu", 9, 9);
    DistinctAppend(Ids("eflu", 1, 7), Ids("eflu", 9, 9));
    forall p, q: nat | (p, q) in {(1, 7), (9, 9)}
      ensures forall x :: x in Ids("eflu", p, q) ==> x !in rest
    {
      IdsDisjoint("eflu", p, q, "campo", 1, 16);
      IdsDisjoint("eflu", p, q, "quim", 1, 10);
      IdsDisjoint("eflu", p, q, "comb", 1, 14);
    }
    DistinctAppend(Ids("eflu", 1, 7) + Ids("eflu", 9, 9), rest);
  }

  lemma FromMassaDistinct()
    ensures Distinct((Ids("massa", 1, 9) + Ids("massa", 10, 9)) + ((Ids("eflu", 1, 7) + Ids("eflu", 9, 9)) + (Ids("campo", 1, 16) + (Ids("quim", 1, 10) + Ids("comb", 1, 14)))))
  {
    var rest := (Ids("eflu", 1, 7) + Ids("eflu", 9, 9)) + (Ids("campo", 1, 16) + (Ids("quim", 1, 10) + Ids("comb", 1, 14)));
    FromEfluentesDistinct();
    IdsDistinct("massa", 1, 9);
    IdsDistinct("massa", 10, 9);
    IdsDisjoint("massa", 1, 9, "massa", 10, 9);
    DistinctAppend(Ids("massa", 1, 9), Ids("massa", 10, 9));
    forall p, q: nat | (p, q) in {(1, 9), (10, 9)}
      ensures forall x :: x in Ids("massa", p, q) ==> x !in rest
    {
      IdsDisjoint("massa", p, q, "eflu", 1, 7);
      IdsDisjoint("massa", p, q, "eflu", 9, 9);
      IdsDisjoint("massa", p, q, "campo", 1, 16);
      IdsDisjoint("massa", p, q, "quim", 1, 10);
      IdsDisjoint("massa", p, q, "comb", 1, 14);
    }
    DistinctAppend(Ids("massa", 1, 9) + Ids("massa", 10, 9), rest);
  }

  /** No two items of the catalog share an id, within or across categories. */
  lemma ShippedItemIdsDistinct()
    ensures Distinct(AllItemIds(ChecklistDefinitions()))
  {
    FromMassaDistinct();
    ShippedAllItemIds();
    var b := ShippedIdBlocks();
    Regroup(b[0], b[1], b[2], b[3], b[4], b[5], b[6]);
  }

  lemma Regroup(a: seq<string>, b: seq<string>, c: seq<string>, d: seq<string>, e: seq<string>, f: seq<string>, g: seq<string>)
    ensures a + b + c + d + e + f + g == (a + b) + ((c + d) + (e + (f + g)))
  {
  }

  /** Item numbers need not be contiguous: there is no eflu-08. */
  lemma Eflu08Absent()
    ensures "eflu-08" !in AllItemIds(ChecklistDefinitions())
  {
    ShippedAllItemIds();
    assert "eflu-08" == ItemId("eflu", 8);
    var b := ShippedIdBlocks();
    IdsDisjoint("eflu", 8, 1, "massa", 1, 9);
    IdsDisjoint("eflu", 8, 1, "massa", 10, 9);
    IdsDisjoint("eflu", 8, 1, "eflu", 9, 9);
    IdsDisjoint("eflu", 8, 1, "campo", 1, 16);
    IdsDisjoint("eflu", 8, 1, "quim", 1, 10);
    IdsDisjoint("eflu", 8, 1, "comb", 1, 14);
    IdsDisjoint("eflu", 1, 7, "eflu", 8, 1);
    assert Ids("eflu", 8, 1)[0] == ItemId("eflu", 8);
  }

  /** The mock projects are proj-1, proj-2 and proj-3. */
  lemma MockProjectIds()
    ensures |MockProjects()| == 3
    ensures MockProjects()[0].id == "proj-1" && MockProjects()[1].id == "proj-2" && MockProjects()[2].id == "proj-3"
    ensures forall i, j :: 0 <= i < j < |MockProjects()| ==> MockProjects()[i].id != MockProjects()[j].id
  {
    var p := MockProjects();
    assert p[0].id[5] != p[1].id[5] && p[0].id[5] != p[2].id[5] && p[1].id[5] != p[2].id[5];
  }
}
