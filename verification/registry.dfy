/** The subscriber registry (`alert_numbers` in src/whatsapp.py,
    `alert_chat_ids` in monitor.py) and what a command handler hands back:
    the registry afterwards and the reply, if any. */
module Registry {
  import opened Optional

  /** The replies, as tags; their text is not modelled. */
  datatype Reply =
    | Denied              // "Sem permissao."
    | Activated           // "Monitoramento ativo!" with the configuration summary
    | Paused              // "Monitoramento pausado."
    | Report(text: string) // the status text
    | Menu(alertsOn: bool) // the help menu, showing "Alertas: ON/OFF"
    | NotRecognized       // "Comando nao reconhecido."
    | YourId(userId: int) // "Seu user ID: ..."

  datatype Handled<Id> = Handled(registry: set<Id>, reply: Option<Reply>)

  /** `set.add(id)` */
  function Subscribe<Id>(reg: set<Id>, id: Id): (r: set<Id>)
    ensures id in r
    ensures r - {id} == reg - {id}
  {
    reg + {id}
  }

  /** `set.discard(id)`: no error when `id` is absent. */
  function Unsubscribe<Id>(reg: set<Id>, id: Id): (r: set<Id>)
    ensures id !in r
    ensures r - {id} == reg - {id}
  {
    reg - {id}
  }

  /** Subscribing twice is subscribing once; unsubscribing a stranger
      changes nothing; unsubscribing undoes a fresh subscription. */
  lemma RegistryLaws<Id>(reg: set<Id>, id: Id)
    ensures Subscribe(Subscribe(reg, id), id) == Subscribe(reg, id)
    ensures id in reg ==> Subscribe(reg, id) == reg
    ensures id !in reg ==> Unsubscribe(reg, id) == reg
    ensures id !in reg ==> Unsubscribe(Subscribe(reg, id), id) == reg
  {
  }
}
