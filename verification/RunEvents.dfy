/** What happens to the shared resources during a run, in the order it happens. */
module RunEvents {

  datatype Event = Acquired | Launched | Opened | Initialized(k: nat) | Planned | Captured
    | ContextClosed | RuntimeClosed | Released | Transaction
}
