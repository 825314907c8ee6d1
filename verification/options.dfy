/** An optional value: `None` stands for a JavaScript `undefined` (an absent
    field or header), or for a collaborator call that threw. */
module Options {

  datatype Option<+T> = None | Some(value: T)
}
