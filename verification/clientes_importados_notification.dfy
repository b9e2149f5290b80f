/**
 * The import report mail: its channel and the lines `toMail` appends to the
 * message builder, step by step, depending on the three counters.
 */
module ClientesImportados {
  import Text

  /** The lines this mail can carry; `Wording()` is the text each one renders to. */
  datatype ReportLine =
    | Intro
    | Processed(count: nat)
    | WrongProfile(count: nat)
    | DuplicateEmail(count: nat)
    | Separator
    | GuidanceHeading
    | Guidance
    | Congratulations
    | Thanks
  {
    function Wording(): string {
      match this
      case Intro =>
        "O processamento da sua planilha de clientes foi concluído. Abaixo você confere o balanço detalhado da operação:"
      case Processed(n) =>
        "\U{2705} **" + Text.NatToString(n) + "** registros processados com sucesso."
      case WrongProfile(n) =>
        "\U{26A0}\U{FE0F} **" + Text.NatToString(n) + "** registros ignorados por possuírem perfis divergentes de 'cliente'."
      case DuplicateEmail(n) =>
        "\U{1F6AB} **" + Text.NatToString(n) + "** registros não processados por e-mails já existentes na base."
      case Separator => "---"
      case GuidanceHeading => "**Orientações para reenvio:**"
      case Guidance =>
        "Para os registros não processados, sugerimos que valide em sua planilha se os e-mails já estão cadastrados ou se os perfis estão definidos corretamente como \"cliente\". Após os ajustes, você poderá reenviar apenas as linhas corrigidas para processamento."
      case Congratulations => "Parabéns! Todos os dados estavam em conformidade e foram integrados perfeitamente."
      case Thanks => "Obrigado por utilizar a estrutura API Olirum!"
    }
  }

  /** One call on Laravel's `MailMessage` builder, in the order it was made. */
  datatype MailPart =
    | Subject(text: string)
    | Greeting(text: string)
    | Line(line: ReportLine)
    | Action(title: string, url: string)

  /** The notification's constructor arguments. */
  datatype Notification = Notification(totalSucesso: nat, totalErrosPerfil: nat, totalErrosDuplicados: nat)

  /** `via`: the notification always goes by mail. */
  function Via(n: Notification): (channels: seq<string>)
    ensures channels == ["mail"]
  {
    ["mail"]
  }

  const SubjectText: string := "Relatório de Importação de Clientes"
  const ActionTitle: string := "Acessar Painel de Usuários"

  function Greet(name: string): string {
    "Olá, " + name + "!"
  }

  predicate HasErrors(n: Notification) {
    n.totalErrosPerfil > 0 || n.totalErrosDuplicados > 0
  }

  /**
   * `toMail`: `name` is the recipient's name as read through the model and
   * `appUrl` the application's root URL (`url('/')`).
   */
  method ToMail(n: Notification, name: string, appUrl: string) returns (mail: seq<MailPart>)
    ensures |mail| >= 7
    ensures mail[..4] == [Subject(SubjectText), Greeting(Greet(name)), Line(Intro), Line(Processed(n.totalSucesso))]
    ensures (exists c :: Line(WrongProfile(c)) in mail) <==> n.totalErrosPerfil > 0
    ensures (exists c :: Line(DuplicateEmail(c)) in mail) <==> n.totalErrosDuplicados > 0
    ensures n.totalErrosPerfil > 0 ==> Line(WrongProfile(n.totalErrosPerfil)) in mail
    ensures n.totalErrosDuplicados > 0 ==> Line(DuplicateEmail(n.totalErrosDuplicados)) in mail
    ensures Line(GuidanceHeading) in mail <==> HasErrors(n)
    ensures Line(Congratulations) in mail <==> !HasErrors(n)
    ensures mail[|mail| - 2..] == [Action(ActionTitle, appUrl), Line(Thanks)]
  {
    mail := [Subject(SubjectText), Greeting(Greet(name)), Line(Intro), Line(Processed(n.totalSucesso))];
    if n.totalErrosPerfil > 0 {
      mail := mail + [Line(WrongProfile(n.totalErrosPerfil))];
    }
    if n.totalErrosDuplicados > 0 {
      mail := mail + [Line(DuplicateEmail(n.totalErrosDuplicados))];
    }
    if HasErrors(n) {
      mail := mail + [Line(Separator), Line(GuidanceHeading), Line(Guidance)];
    } else {
      mail := mail + [Line(Congratulations)];
    }
    mail := mail + [Action(ActionTitle, appUrl), Line(Thanks)];
  }
}
