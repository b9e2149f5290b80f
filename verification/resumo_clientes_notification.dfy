/**
 * The weekly client-base summary mail: its channel, the engagement sentence
 * chosen from the number of new clients, and the lines of `toMail`.
 */
module ResumoClientes {
  import Text

  /** The notification's constructor arguments. */
  datatype Notification = Notification(totalGeral: int, totalNovos: int)

  /** The three sentences `getMensagemEngajamento` chooses from. */
  datatype Engagement = NoNewClients | FastGrowth | SteadyGrowth
  {
    function Wording(): string {
      match this
      case NoNewClients =>
        "Nesta última semana não registramos novos clientes. Que tal planejar uma nova campanha de engajamento?"
      case FastGrowth => "Sua base está crescendo em um ritmo acelerado! Excelente trabalho na captação."
      case SteadyGrowth => "Sua base de clientes continua em constante expansão."
    }
  }

  /** The lines this mail carries; `Wording()` is the text each one renders to. */
  datatype SummaryLine =
    | Intro
    | Total(totalGeral: int)
    | New(totalNovos: int)
    | Engaged(engagement: Engagement)
    | FollowUp
    | Thanks
  {
    function Wording(): string {
      match this
      case Intro =>
        "Acompanhe o desempenho da sua plataforma. Aqui está o balanço de crescimento da sua base de clientes dos últimos 7 dias:"
      case Total(n) => "\U{1F4CA} **Total acumulado de clientes:** " + Text.IntToString(n)
      case New(n) => "\U{1F4C8} **Novos cadastros nos últimos 7 dias:** " + Text.IntToString(n)
      case Engaged(e) => e.Wording()
      case FollowUp => "Continue acompanhando seus indicadores para expandir seus resultados."
      case Thanks => "Obrigado por utilizar o sistema Olirum!"
    }
  }

  /** One call on Laravel's `MailMessage` builder. */
  datatype MailPart =
    | Subject(text: string)
    | Greeting(text: string)
    | Line(line: SummaryLine)
    | Action(title: string, url: string)

  /** `via`: the summary always goes by mail. */
  function Via(n: Notification): (channels: seq<string>)
    ensures channels == ["mail"]
  {
    ["mail"]
  }

  /**
   * The sentence for `totalNovos` new clients: none is exactly zero, fast is
   * more than 50, and every other value (negatives included) is steady.
   */
  function EngagementFor(totalNovos: int): (e: Engagement)
    ensures e == NoNewClients <==> totalNovos == 0
    ensures e == FastGrowth <==> totalNovos > 50
    ensures e == SteadyGrowth <==> totalNovos < 0 || 1 <= totalNovos <= 50
  {
    if totalNovos == 0 then NoNewClients
    else if totalNovos > 50 then FastGrowth
    else SteadyGrowth
  }

  /** `getMensagemEngajamento`. */
  function MensagemEngajamento(totalNovos: int): string {
    EngagementFor(totalNovos).Wording()
  }

  const SubjectText: string := "Relatório Semanal: Crescimento da Base de Clientes"
  const ActionTitle: string := "Gerenciar Clientes"
  const ActionPath: string := "/api/v1/users"

  /**
   * `toMail`: the total, then the new count, then the engagement sentence,
   * then the link to the users listing under the application's root URL.
   */
  function ToMail(n: Notification, name: string, appUrl: string): (mail: seq<MailPart>)
    ensures |mail| == 9
    ensures mail[0] == Subject(SubjectText) && mail[1] == Greeting("Olá, " + name + "!")
    ensures mail[3..6] == [Line(Total(n.totalGeral)), Line(New(n.totalNovos)), Line(Engaged(EngagementFor(n.totalNovos)))]
    ensures mail[6] == Action(ActionTitle, appUrl + ActionPath) && mail[8] == Line(Thanks)
  {
    [ Subject(SubjectText),
      Greeting("Olá, " + name + "!"),
      Line(Intro),
      Line(Total(n.totalGeral)),
      Line(New(n.totalNovos)),
      Line(Engaged(EngagementFor(n.totalNovos))),
      Action(ActionTitle, appUrl + ActionPath),
      Line(FollowUp),
      Line(Thanks) ]
  }

  /**
   * Exactly one engagement sentence is in the mail, the one chosen for the
   * number of new clients, and it renders to `getMensagemEngajamento`'s text.
   */
  lemma OneEngagementSentence(n: Notification, name: string, appUrl: string, e: Engagement)
    ensures Line(Engaged(e)) in ToMail(n, name, appUrl) <==> e == EngagementFor(n.totalNovos)
    ensures Engaged(EngagementFor(n.totalNovos)).Wording() == MensagemEngajamento(n.totalNovos)
  {
    var mail := ToMail(n, name, appUrl);
    assert mail[5] == Line(Engaged(EngagementFor(n.totalNovos)));
  }
}
