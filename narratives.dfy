/**
 * The fixed narrative paragraphs of gerador_relatorios/reports.py. The
 * programming paragraphs of Terapia ABA, Terapia Ocupacional,
 * Fonoaudiologia, Psicomotricidade and Psicopedagogia are word for word the
 * same in both reports and are defined once here.
 */
module Narratives {
  import opened Specialties

  // gerador_relatorios/reports.py:142-145
  const PneDiagnosis: string :=
    "Transtorno do Espectro Autista, conforme critérios do DSM-5. " +
    "Apresentando prejuízos significativos na comunicação social e " +
    "comportamentos restritos e repetitivos, necessitando de apoio " +
    "substancial em múltiplas áreas do desenvolvimento."

  // gerador_relatorios/reports.py:154-159
  const AbaEvolution: string :=
    "A paciente tem apresentado evolução gradual no manejo de " +
    "comportamentos desafiadores e na aquisição de habilidades adaptativas. " +
    "Destaca-se o progresso na capacidade de seguir instruções, maior " +
    "participação em atividades estruturadas e aumento da comunicação " +
    "funcional, com boa aceitação aos programas propostos e resposta " +
    "positiva ao reforço positivo."

  // gerador_relatorios/reports.py:167-171
  const PsicoterapiaEvolution: string :=
    "Observa-se maior abertura da paciente ao vínculo terapêutico, " +
    "com avanços na expressão emocional, identificação de sentimentos " +
    "e melhora na tolerância a frustrações. Há desenvolvimento de " +
    "estratégias internas de enfrentamento e maior consciência sobre " +
    "suas próprias emoções e comportamentos, adequadas à sua faixa etária."

  // gerador_relatorios/reports.py:179-183
  const TerapiaOcupacionalEvolution: string :=
    "Houve progresso no desempenho ocupacional, especialmente nas " +
    "áreas de autorregulação, coordenação motora e autonomia nas " +
    "atividades diárias. A paciente apresenta melhor organização " +
    "sensorial e maior engajamento em tarefas funcionais, tanto em " +
    "contextos lúdicos quanto nas rotinas cotidianas."

  // gerador_relatorios/reports.py:191-195
  const FonoaudiologiaEvolution: string :=
    "Verifica-se avanço significativo nas habilidades comunicativas, " +
    "seja por meio da fala, linguagem alternativa ou recursos expressivos " +
    "e receptivos. A paciente demonstra melhor compreensão de comandos, " +
    "maior intenção comunicativa e expansão do vocabulário funcional, " +
    "além de avanços na articulação e fluência, conforme a necessidade individual."

  // gerador_relatorios/reports.py:203-207
  const PsicomotricidadeEvolution: string :=
    "A evolução psicomotora inclui melhora na coordenação global e fina, " +
    "organização espacial e equilíbrio. A paciente demonstra maior " +
    "consciência corporal e controle motor, com progressos que refletem " +
    "positivamente no comportamento, na atenção e na interação social " +
    "durante as atividades terapêuticas."

  // gerador_relatorios/reports.py:215-219
  const PsicopedagogiaEvolution: string :=
    "A paciente apresentou melhora na atenção, concentração e interesse " +
    "por atividades que envolvem linguagem, raciocínio lógico e habilidades " +
    "acadêmicas. Observa-se avanço na memória de trabalho, organização do " +
    "pensamento e capacidade de seguir sequências, contribuindo para o " +
    "desempenho escolar ou acadêmico, conforme a faixa etária."

  // gerador_relatorios/reports.py:229-233
  const AbaProgramming: string :=
    "A programação atual visa fortalecer comportamentos funcionais, " +
    "ampliar a comunicação, promover autonomia nas rotinas e reduzir " +
    "comportamentos de oposição, fuga ou auto estimulação. São utilizados " +
    "programas personalizados de ensino por tentativas discretas, ensino " +
    "naturalístico e treino de habilidades sociais."

  // gerador_relatorios/reports.py:240-243
  const PsicoterapiaPneProgramming: string :=
    "Os objetivos terapêuticos incluem promover o autoconhecimento, " +
    "a regulação emocional, o desenvolvimento da autoestima e o enfrentamento " +
    "saudável de desafios, utilizando abordagens adequadas à idade " +
    "(brincadeiras simbólicas, recursos visuais, técnicas cognitivas, entre outras)."

  // gerador_relatorios/reports.py:250-253
  const TerapiaOcupacionalProgramming: string :=
    "As intervenções atuais priorizam o desenvolvimento da independência " +
    "em atividades de vida diária (AVDs), o planejamento motor e a integração " +
    "sensorial. São propostas atividades lúdicas e funcionais, com adaptações " +
    "conforme a faixa etária, para favorecer o desempenho ocupacional global."

  // gerador_relatorios/reports.py:260-263
  const FonoaudiologiaProgramming: string :=
    "O foco terapêutico envolve o aperfeiçoamento da linguagem oral e/ou " +
    "alternativa, melhora na compreensão e expressão verbal, bem como o " +
    "desenvolvimento das habilidades fonológicas e comunicativas. A intervenção " +
    "considera o nível atual de linguagem e o contexto escolar, familiar e social da paciente."

  // gerador_relatorios/reports.py:270-273
  const PsicomotricidadeProgramming: string :=
    "O trabalho psicomotor tem como meta promover o domínio do corpo no espaço, " +
    "controle postural, lateralidade e coordenação em diferentes níveis. As sessões " +
    "envolvem jogos, circuitos e desafios motores com objetivos específicos para " +
    "aprimorar a integração sensório-motora."

  // gerador_relatorios/reports.py:280-283
  const PsicopedagogiaProgramming: string :=
    "A atuação psicopedagógica busca estimular habilidades cognitivas e acadêmicas, " +
    "com estratégias personalizadas para desenvolver leitura, escrita, lógica " +
    "matemática e resolução de problemas. O plano também inclui o fortalecimento " +
    "da autoestima escolar e o apoio no planejamento e organização do tempo."

  // gerador_relatorios/reports.py:289-293
  const PneClosing: string :=
    "A paciente segue em acompanhamento com evolução positiva. O trabalho " +
    "conjunto entre as especialidades tem favorecido ganhos significativos e " +
    "generalização das habilidades desenvolvidas para diferentes ambientes. " +
    "Recomendamos a continuidade do atendimento terapêutico e o envolvimento " +
    "da família e/ou escola no processo."

  // gerador_relatorios/reports.py:297-299
  const PneAvailability: string :=
    "Nos colocamos à disposição para esclarecimentos sobre o processo " +
    "terapêutico, bem como para oferecer orientações e suporte sempre que " +
    "necessário, respeitando os limites éticos da atuação clínica."

  // gerador_relatorios/reports.py:329-338
  const TipicoDiagnosis: string :=
    "O paciente apresenta características compatíveis com o desenvolvimento " +
    "típico, sem indicação, até o momento, de transtornos diagnosticáveis " +
    "conforme os manuais classificatórios vigentes (CID-11/DSM-5). As demandas " +
    "observadas referem-se a dificuldades específicas no enfrentamento de " +
    "situações do cotidiano, que podem envolver aspectos emocionais, comportamentais " +
    "ou relacionais, exigindo suporte terapêutico para favorecer o desenvolvimento " +
    "de habilidades adaptativas e funcionais. A avaliação clínica sugere que, " +
    "embora não haja indicativos de psicopatologia, a intervenção é pertinente " +
    "para promoção do bem-estar, prevenção de dificuldades futuras e apoio ao " +
    "desenvolvimento global."

  // gerador_relatorios/reports.py:344-355
  const TipicoEvolution: string :=
    "Desde o início do acompanhamento, o(a) paciente tem demonstrado avanços " +
    "compatíveis com os objetivos terapêuticos estabelecidos. Observa-se " +
    "progressiva ampliação da capacidade de expressão emocional, melhor " +
    "compreensão de situações internas e externas e maior tolerância a " +
    "frustrações e contrariedades. Há indícios de fortalecimento do vínculo " +
    "terapêutico, o que tem favorecido maior abertura para o diálogo, " +
    "elaboração de vivências e desenvolvimento de estratégias de enfrentamento. " +
    "Em casos infantis, o uso de recursos lúdicos, histórias sociais e " +
    "brincadeiras tem promovido maior engajamento e expressão simbólica. " +
    "Para adolescentes e adultos, observa-se maior clareza na identificação " +
    "de sentimentos e pensamento reflexivo sobre padrões de comportamento, " +
    "relações interpessoais e tomada de decisões."

  // gerador_relatorios/reports.py:364-374
  const TipicoPsicoterapiaProgramming: string :=
    "A psicoterapia segue com o objetivo de promover o autoconhecimento, " +
    "fortalecer a autoestima e desenvolver recursos internos para lidar com " +
    "desafios emocionais e comportamentais. São utilizadas estratégias adequadas " +
    "à faixa etária, tais como: escuta ativa, ludoterapia, mediação simbólica, " +
    "reestruturação cognitiva, treino de habilidades sociais e técnicas de " +
    "regulação emocional. A abordagem terapêutica está centrada nas necessidades " +
    "atuais do(a) paciente, com foco na construção de estratégias saudáveis " +
    "para resolução de conflitos internos, desenvolvimento da autonomia emocional " +
    "e aprimoramento das relações interpessoais. O processo psicoterapêutico é " +
    "conduzido respeitando o ritmo individual, com observação contínua da evolução " +
    "e ajustes nas intervenções conforme a resposta do(a) paciente."

  // gerador_relatorios/reports.py:431-435
  const TipicoClosing: string :=
    "Recomenda-se a continuidade do processo terapêutico, com participação " +
    "ativa da família e alinhamento com a rede de apoio para promover a " +
    "generalização dos avanços obtidos em consultório. A psicoterapia tem se " +
    "mostrado um espaço importante de escuta, acolhimento e construção de " +
    "recursos para a promoção da saúde mental."

  /** The evolution paragraph of each specialty (PNE report). */
  function EvolutionText(sp: Specialty): string {
    match sp
    case Aba => AbaEvolution
    case Psicoterapia => PsicoterapiaEvolution
    case TerapiaOcupacional => TerapiaOcupacionalEvolution
    case Fonoaudiologia => FonoaudiologiaEvolution
    case Psicomotricidade => PsicomotricidadeEvolution
    case Psicopedagogia => PsicopedagogiaEvolution
  }

  /**
   * The programming paragraph under each specialty's title. The Psicoterapia
   * one is used by the PNE report only; the Típico report has its own
   * untitled Psicoterapia paragraph.
   */
  function ProgrammingText(sp: Specialty): string {
    match sp
    case Aba => AbaProgramming
    case Psicoterapia => PsicoterapiaPneProgramming
    case TerapiaOcupacional => TerapiaOcupacionalProgramming
    case Fonoaudiologia => FonoaudiologiaProgramming
    case Psicomotricidade => PsicomotricidadeProgramming
    case Psicopedagogia => PsicopedagogiaProgramming
  }
}
