# A Dafny model of frp

frp publishes services behind a NAT. A client, frpc, keeps one control connection to a
server, frps, registers proxies over it and supplies work connections; frps opens ports
and virtual-host routes for the proxies. This project models what frp decides in between:
its session protocol, its proxy life cycle, its routing tables and its allocators. It
proves properties of them for all inputs, all runs and all interleavings of steps.

The project has five parts.

1. **Control sessions on frps.** `ServerControl` is one session: reader, writer, manager
   and stoper with a program counter each, channels as queues with a closed flag, the
   port quota and the pool of work connections. One locked region is one step. `ServerSessions`
   puts any number of sessions together with the map of run ids and the registry of proxy
   names. `ServerProgress` says when a session can still end, `LoginReplacement` when a
   login that waits for its predecessor can still begin, and `ServerReplies` what is
   answered and handed out, in which order. `ServerObjects` has the same operations on the objects of the program, and
   `WorkConnPool` the bounded retry loop over the pool.
2. **Proxy life cycle.** `ProxyLifecycle` is one proxy name on frpc together with frps:
   phases, health flips, timeouts, two queues. `Fleet` is all names at once and refines
   it. `ClientManager` is the wrapper and the manager with hot reload as objects,
   `ClientControl` the goroutines and channels of the client's control connection, and
   `ClientProgress` when it can still end, which a reconnect waits for.
3. **Virtual hosts.** `Routers` is the nested index with sorted locations,
   `VhostLookup` the wildcard search of both the HTTP proxy and the muxer,
   `HttpProxies` the all-or-nothing registration of one proxy. `HttpWorld` is any number of
   proxies registering and closing at the same time, one step for each key.
   `SubdomainNamespace` is the check that reserves the server's own subdomains.
4. **Ports and groups.** `PortSpec` is the port allocator on values and `PortManager`
   the same with shared records updated in place. `TcpWorld` accounts for the ports of
   all TCP proxies and groups over any run, `PortSharing` says how one port can get two
   holders, `TcpProxies` has the objects, and `HttpGroups` the groups that share one
   route.
5. **Arithmetic and text.** `DateCounter`, `Backoff`, `AdminConfig` with its row
   operations in `RowTransforms`, and the string functions in `Text`.

Where the code works by changing objects, the model is a class, and each method is proved
against a function of the old state. Where several goroutines interleave, the model is a
step function over a state, and the theorems are about `Run`: every sequence of events.

## Assumptions

- `isPortAvailable` is an arbitrary oracle: nothing is assumed about which ports it
  offers. Only `PortSharing` assumes, for what it says about real systems, that it
  refuses every port that is bound.
- Iterating over a Go map visits each key once, in any order.
- 0 is not an allowed port, since 0 also means "none found" (server/ports/ports.go:117).
- The operations of a group controller are atomic. The code drops the controller's lock
  before it calls the group (server/group/http.go:42-44, server/group/tcp.go:55-57).
- `Shutdown.Start` and `Shutdown.Done` of golib may be called more than once.
- No server plugin renames a proxy.
- `make(chan)` fails for a pool count below -10, so no session has one.
- Rendering the configuration template changes nothing.
- A proxy configuration is compared as one value, and a configuration is filed under the
  name of its proxy.
- `sort.Sort` is an insertion sort; the locations of a leaf are distinct, so any sort
  gives the same list.

## Results that are not what one might expect

- A login that replaces a session can wait for ever: one bad ping followed by eleven
  messages is enough (`LoginCanWaitForEver`). `CanBeginIff` and `CanFinishIff` say
  exactly when that has become certain, with and without the heartbeat timeout.
- A proxy that was closed while an answer of frps was pending can later run on the client
  although frps has nothing registered, for ever and with empty queues
  (`FlappingEndsUnregistered`). `ClosingIsSafeIff` gives the exact condition.
- A nil error of `GetWorkConnFromPool` does not mean that StartWorkConn was sent; the
  contract of that method says exactly when it does.
- A TCP group's port leaks when `net.Listen` fails after the port was acquired while
  free, until a new proxy or group gets it or someone releases it. A port that nobody
  claims is in use exactly if it leaked so (`UnclaimedInUseIff`); unless a held port was
  granted again, those ports are all that leaked (`LeakedIsUnclaimed`).
- One port can have two holders even when every bound port is refused: a group whose
  members ask for any port listens on the requested port 0 and never binds the port it
  acquired, so its first member can get that port again (`SharingHappens`,
  `WhoSharesItsPort`). `OnePortEachIff` gives the exact condition for one port each.
- A TCP proxy that got such a port and then fails to listen releases it under its other
  holder (`UndoGrantIff`).
- Two HTTP proxies that register at the same time can refuse each other and both fail,
  although either alone is accepted (`BothCanBeRefused`). `RefusedIff` says what a
  registration is refused for.
- A counter's slots go wrong when midnights are an hour short of whole days, unless
  nothing is kept that long, or when the clock goes back; a day that is an hour longer
  does no harm (`ClockChange`, `RotateRightIff`). `RightAtTheEndIff` gives the exact
  condition over whole runs.
- A counter's `Snapshot` keeps the slots but takes today's date, so it is right only on
  the day of the last update (`SnapshotFaithfulIff`).
- Requests arrive in lower case, at the HTTP proxy also without a dot at the end, but
  names are registered and checked as they are spelt. A subdomain host spelt otherwise
  leaves every subdomain to custom domains (`SeenIsAccepted`, `NamespaceSafeIff`), and
  requests for a subdomain spelt otherwise can be answered by another
  (`SubdomainAnswersItselfIff`).
- The subdomain check refuses only what lies below the subdomain host if and only if no
  subdomain host is set (`RefusesOnlyNamespaceIff`); `WronglyRefusedIff` says which names
  are refused wrongly.
- From 2^63 on an HTTP group's counter selects the first member or indexes out of range
  (`ChoiceAt` in the contract of `CreateConn`).
- The token survives an upload exactly if the body has a `[common]` row
  (`TokenSurvivesIff`).

## Model

| member | source | states |
|---|---|---|
| ServerControl.NewControlKeeps | server/control.go:152-191 | a new session meets the invariant: no channel misused, pool accounted for, quota kept |
| ServerControl.BootStepKeeps | server/control.go:196-213 | asking for the initial connections and starting the goroutines keeps the invariant, for a pool count of any sign |
| ServerControl.WriterKeeps | server/control.go:297-327 | writing a message, or failing to, keeps the invariant; a request lost with the connection is counted as lost |
| ServerControl.ForwardKeeps | server/control.go:341-355 | the reader's unguarded send to readCh never meets a closed channel |
| ServerControl.ManagerReceiveKeeps | server/control.go:448-512 | taking any message keeps the invariant, including the port limit test and the return of a closed proxy's ports |
| ServerControl.ManagerAddKeeps | server/control.go:570-573 | registering a name the session does not hold keeps the quota and the channels |
| ServerControl.ManagerCleanUpKeeps | server/control.go:551-568 | the deferred clean-up of a failed registration returns exactly the ports that were counted |
| ServerControl.ManagerStoreKeeps | server/control.go:575-577 | the stored proxy takes over the ports counted for it, so the count stays the sum over the proxies |
| ServerControl.ManagerReplyKeeps | server/control.go:482-509 | the manager's unguarded reply to sendCh never meets a closed channel |
| ServerControl.StoperKeeps | server/control.go:358-409 | each wait and close of the ordered shutdown keeps the invariant, so every channel is closed once and only behind its last unguarded sender |
| ServerControl.ReleaseKeeps | server/control.go:386-389 | closing the proxies one by one, in any order, keeps the invariant |
| ServerControl.ArriveKeeps | server/control.go:215-234 | a connection that arrives is pooled, discarded because the pool is full, or lost in a closed pool, and is accounted for in each case |
| ServerControl.TakeKeeps | server/control.go:253-276 | taking a connection, at once or after waiting, hands it out once and leaves a replacement owed |
| ServerControl.MissKeeps | server/control.go:260-266 | an empty pool leads to one more request, unless the session is closing |
| ServerControl.ReplaceKeeps | server/control.go:283-287 | the replacement request pays what is owed, or is counted as lost when the session is closing |
| ServerControl.LocalKeeps | server/control.go:196-513 | every step of every goroutine of a session keeps the whole invariant |
| ServerControl.LocalIsUnseen | server/control.go:196-513 | those steps change neither the names the session holds in the registry nor whether it has begun, and never undo being done |
| ServerControl.HandedOnce | server/control.go:242-288 | no connection is handed out twice, and one that was handed out is no longer pooled |
| ServerControl.HandsOutIff | server/control.go:253-276 | a caller gets a connection if and only if one is pooled, at once or after waiting, and then the oldest |
| ServerControl.RequestsIff | server/control.go:260-288 | a request for a waiting caller or a connection taken is sent if and only if the channel is open with room |
| ServerControl.WriterExitsIff | server/control.go:297-327 | the writer ends exactly when its channel is closed and empty, a message cannot be written, or it cannot start |
| ServerControl.DoneMeans | server/control.go:358-409 | a session that is done has no running goroutine, all channels closed, an empty pool and no registered name |
| ServerSessions.LoginKeeps | server/control.go:59-69 | a login, fresh or replacing an older session of its run id, keeps the order of sessions |
| ServerSessions.StartKeeps | server/service.go:481-486 | starting after the predecessor is done keeps the order of sessions |
| ServerSessions.RegisterKeeps | server/proxy/proxy.go:328-337 | adding a name, or refusing one in use, keeps the registry the disjoint union of what sessions hold |
| ServerSessions.UnregisterKeeps | server/control.go:581-598 | CloseProxy removes the name of the session's own proxy or nothing |
| ServerSessions.ReleaseStepKeeps | server/control.go:386-389 | the shutdown removes only names the session holds |
| ServerSessions.ForgetKeeps | server/control.go:72-78 | removing a finished session's entry keeps the map of run ids right |
| ServerSessions.StartBeginsIff | server/service.go:482-486 | after its Start a session is begun if and only if it was before or every earlier session of its run id is finished |
| ServerSessions.LoginMeans | server/control.go:59-69 | a login adds a waiting session as the entry of its run id and tells every session of that run id to stop, and changes nothing else |
| ServerSessions.RegisterMeans | server/proxy/proxy.go:328-337 | a proxy that runs is entered under its name if and only if the name is free, and the manager goes on or cleans up accordingly |
| ServerSessions.UnregisterMeans | server/control.go:581-598 | CloseProxy removes a name if and only if this session registered it, and takes it from the session's proxies |
| ServerSessions.ForgetMeans | server/control.go:72-78 | a run id is removed if and only if the session is finished and no newer login of that run id came |
| ServerSessions.AlwaysInv | server/control.go:59-617 | in every run of any number of sessions all invariants hold together |
| ServerSessions.AtMostOneRuns | server/service.go:481-495 | at most one session of a run id is begun and not done, in every run |
| ServerSessions.UnfinishedIsKnown | server/control.go:59-85 | the entry of a run id is its latest login; a session that is not done is that entry, or was told to stop in favour of it, so no finished session's Del removed it |
| ServerSessions.PredecessorsGone | server/service.go:482-486 | when a session begins, every earlier one of its run id is done and none of their names is registered |
| ServerSessions.RegistryExact | server/proxy/proxy.go:315-350 | a name is registered for a session if and only if that session holds it, with the session's own object |
| ServerSessions.OthersKeepTheirNames | server/control.go:386-389 | no step of one session, and no login, changes or removes a name that another session registered |
| ServerSessions.SessionsAreSafe | server/control.go:540-597 | in every run no session panics, portsUsedNum is the sum over its proxies and the one in progress and within the limit, the pool holds at most poolCount + 10, and no connection is handed out twice |
| ServerSessions.PoolIsAccounted | server/control.go:196-288 | in every run pooled, requested and owed connections equal the initial number plus misses and strays minus every recorded loss; while a session can write and its channel for requests is open nothing is lost, so without client failures they never fall below the pool count |
| ServerSessions.FinishedMeans | server/control.go:358-414 | in every run a session that is done has stopped, closed and released everything |
| ServerProgress.CanEndIff | server/control.go:196-409 | a session that has begun can still end if and only if its reader does not wait for a manager that leaves and a writer that is gone has left room for what must still be sent |
| ServerProgress.MoveIds | server/control.go:515-598 | every step keeps the proxies of a session distinct objects, the one being registered included |
| LoginReplacement.ObjectsAreDistinct | server/control.go:515-598 | in every run no two names of a session stand for the same proxy object |
| LoginReplacement.CanFinishIff | server/control.go:358-414 | in every run of any number of sessions a session that has begun can still finish if and only if it is not so blocked |
| LoginReplacement.CanBeginIff | server/service.go:481-495 | in every run a login can still begin if and only if it has, or no earlier session of its run id is so blocked |
| LoginReplacement.LoginCanWaitForEver | server/control.go:341-355 | a run in which a login can never begin, because its predecessor's reader waits for a manager that has left |
| ServerReplies.EachIsAnsweredOnce | server/control.go:448-512 | in every run each NewProxy and each Ping taken is answered exactly once, with its name or its validity and in order, and only a bad ping makes the manager leave behind its answer |
| ServerReplies.NothingOvertakes | server/control.go:215-355 | in every run the manager takes what the reader got, in order and without loss, and connections are handed out in the order they were pooled |
| ServerObjects.ProxyManager.Add | server/proxy/proxy.go:328-337 | a free name is added; a name in use is refused and nothing changes |
| ServerObjects.ProxyManager.Del | server/proxy/proxy.go:339-343 | exactly that name is removed |
| ServerObjects.ProxyManager.GetByName | server/proxy/proxy.go:345-350 | finds a name if and only if it is registered |
| ServerObjects.Control.Replaced | server/control.go:290-295 | the run id is cleared and shutdown started, the proxies stay |
| ServerObjects.Control.RegisterProxy | server/control.go:515-579 | succeeds exactly if the configuration is valid, the port limit holds, Run succeeds and the name is free; a refusal leaves count, maps and running proxies as they were |
| ServerObjects.Control.CloseProxy | server/control.go:581-598 | closes this client's own proxy and returns its ports; a name it does not hold is left alone |
| ServerObjects.ControlManager.Add | server/control.go:59-69 | the new session is the entry, and the previous one is returned, without its run id and told to stop |
| ServerObjects.ControlManager.Del | server/control.go:72-78 | the entry is removed only if it still is this session |
| ServerObjects.ControlManager.GetByID | server/control.go:80-85 | finds the entry of a run id if and only if there is one |
| ServerObjects.RegistrationIsAllOrNothing | server/control.go:454-482 | the manager's steps for one NewProxy message end in exactly one reply, positive if and only if RegisterProxy would succeed, with the same effect on count and proxies |
| ServerObjects.CloseUndoesRegistration | server/control.go:454-485 | round trip: NewProxy and then CloseProxy for a name the session did not have leaves its proxies and port count as before, whatever became of the registration |
| WorkConnPool.GetWorkConnFromPool | server/proxy/proxy.go:100-150 | which try ends the loop, which connections were closed, and that without an error the message was sent if and only if some try settled |
| ClientControl.StepSafe | client/control.go:291-445 | no step sends on a closed channel unguarded or closes one twice, and the worker closes each behind its last unguarded sender |
| ClientControl.StepInOrder | client/control.go:291-416 | no step loses, repeats or reorders a message on its way through a channel |
| ClientControl.ClosedDoneMeans | client/control.go:421-445 | in every run nothing panics, and closedDoneCh is closed only after reader, handler and writer returned and all channels are closed |
| ClientControl.PrefixesInOrder | client/control.go:321-342 | in every run what is written to frps is a prefix of what was sent, and what is handled a prefix of what was read |
| ClientControl.HandlerEndsIff | client/control.go:349-416 | the handler ends exactly on a heartbeat it cannot authenticate, a timeout, a bad answer, or a closed and empty channel |
| ClientControl.WriterEndsIff | client/control.go:321-344 | the writer ends exactly when it cannot start or write, or finds its channel closed and empty |
| ClientControl.ReaderGoesOn | client/control.go:291-316 | the reader passes on every message it reads and stops reading only on an error |
| ClientControl.AcceptedIff | client/control.go:376-388 | a message is accepted exactly from a proxy or the handler when the channel is open with room |
| ClientControl.PingIsDueIff | client/control.go:376-388 | a ping is due exactly from an authenticated heartbeat until it is sent |
| ClientProgress.CanEndIff | client/control.go:291-445 | after any run the control can still end, so that a reconnect goes on, if and only if neither its reader nor its handler waits for room in a channel that no one empties |
| ProxyLifecycle.NextTidy | client/proxy/proxy_wrapper.go:140-202 | whenever a name has no wrapper, or one that is new or failed its check, frps has dropped it or has been told to |
| ProxyLifecycle.Drained | client/proxy/proxy_wrapper.go:163-202 | once the queue is drained a registered name has a wrapper in wait start, running or start error |
| ProxyLifecycle.NextFaithful | client/proxy/proxy_wrapper.go:101-202 | every event that does not close a proxy while an answer is pending keeps it so that answers and queue agree with frps |
| ProxyLifecycle.RunningMeansRegistered | client/proxy/proxy_wrapper.go:101-129 | in every run without such a premature close, running means registered with no CloseProxy on its way |
| ProxyLifecycle.PlainRunningMeansRegistered | client/proxy/proxy_wrapper.go:101-202 | without a health check and while the proxy stays configured, running means registered, for any resends, refusals and local start failures |
| ProxyLifecycle.ClosingIsSafeIff | client/proxy/proxy_wrapper.go:194-201 | from a state in agreement, an event can be followed by a proxy that runs while frps drops it if and only if the event closed it with an answer pending |
| ProxyLifecycle.NextStepIsSafeIff | client/proxy/proxy_wrapper.go:140-201 | the same at the end of every run that was never premature |
| ProxyLifecycle.FlappingEndsUnregistered | client/proxy/proxy_wrapper.go:163-202 | a concrete run with one health flip that ends running, unregistered, with both queues empty |
| ProxyLifecycle.RequestSentIff | client/proxy/proxy_wrapper.go:163-192 | a round sends NewProxy exactly from a healthy wrapper that is new or recovers, or timed out in wait start or start error |
| ProxyLifecycle.CloseSentIff | client/proxy/proxy_wrapper.go:194-201 | a round sends CloseProxy exactly when the check fails for a wrapper that runs or waits, which goes to check failed |
| ProxyLifecycle.AnswerMeans | client/proxy/proxy_wrapper.go:101-129 | an answer counts only in wait start; the proxy runs if and only if frps accepted and it starts, and frps is told if only the start failed |
| ProxyLifecycle.NewWrapperMeans | client/proxy/proxy_wrapper.go:131-192 | a new proxy asks for registration at once, or with a health check after the first good report |
| Fleet.StepKeeps | client/proxy/proxy_manager.go:43-154 | the wrappers not closed are exactly those in the manager's map, after every step |
| Fleet.WorldRefinesLife | client/proxy/proxy_manager.go:43-154 | whatever happens to other names, each name sees a run of its own life cycle |
| Fleet.StoppedOnce | client/proxy/proxy_wrapper.go:140-151 | in every run each wrapper is stopped at most once, exactly if it is closed, and the last message of one in check failed or closed is CloseProxy |
| Fleet.FailingCheckCloses | client/proxy/proxy_wrapper.go:194-201 | in every run a round with a failing check leaves a wrapper neither running nor waiting, and exactly one CloseProxy is added if it did either |
| Fleet.RequestAddedIff | client/proxy/proxy_wrapper.go:163-192 | in every run exactly when a round adds a NewProxy |
| Fleet.FailingBackendIsDropped | client/proxy/proxy_wrapper.go:194-201 | whatever happened before, once a running or waiting proxy has failed its check and the queue is drained, frps does not have it registered |
| Fleet.ClosedStays | client/proxy/proxy_wrapper.go:101-108 | closed is absorbing: no event makes a closed wrapper change phase or send |
| Fleet.DrainedHoldsOnlyLive | client/proxy/proxy_manager.go:111-154 | in every run, once the queue drains frps holds no proxy outside the manager's map |
| Fleet.RunningIsRegistered | client/proxy/proxy_wrapper.go:101-129 | with any other proxies around, running means registered unless the name was closed prematurely |
| Fleet.PlainRunningIsRegistered | client/proxy/proxy_wrapper.go:101-202 | with any other proxies around, a running proxy without health check is registered |
| ClientManager.Wrapper.Stop | client/proxy/proxy_wrapper.go:140-151 | a wrapper not yet stopped becomes closed and sends exactly one CloseProxy |
| ClientManager.Wrapper.CheckOnce | client/proxy/proxy_wrapper.go:163-202 | one round of the check loop: for each phase, health and timeout the new phase and the one message, written out |
| ClientManager.Wrapper.SetRunningStatus | client/proxy/proxy_wrapper.go:101-129 | only wait start reacts; it becomes running if and only if frps agreed and the local start worked |
| ClientManager.Outbox.HandleEvent | client/proxy/proxy_manager.go:82-99 | the message is appended, or lost without a panic once the channel is closed |
| ClientManager.Manager.Reload | client/proxy/proxy_manager.go:111-154 | afterwards exactly the configured names are in the map: unchanged ones the same object in the same state, others fresh; each dropped one is stopped with exactly one CloseProxy |
| ClientManager.Manager.Close | client/proxy/proxy_manager.go:60-67 | every wrapper is stopped with exactly one CloseProxy, and the map is empty |
| ClientManager.Manager.StartProxy | client/proxy/proxy_manager.go:43-58 | an answer reaches the wrapper of its name and no other, and is dropped without one |
| ClientManager.ReloadAgainDropsNothing | client/proxy/proxy_manager.go:118-136 | reloading the loaded configuration drops nothing and sends nothing |
| Routers.KeysUnique | pkg/util/vhost/router.go:37-66 | no two routes of a valid index have the same domain, location and user |
| Routers.Routers.Exist | pkg/util/vhost/router.go:112-128 | finds a key if and only if a route with exactly that key is registered |
| Routers.Routers.Add | pkg/util/vhost/router.go:37-66 | adds exactly one route, or reports a conflict if and only if the key is taken and then changes nothing |
| Routers.Routers.Del | pkg/util/vhost/router.go:68-88 | removes exactly the routes with that key |
| Routers.Routers.Get | pkg/util/vhost/router.go:90-110 | finds the longest registered location that is a prefix of the path, and none if and only if none is |
| Routers.FirstPrefixIsLongest | pkg/util/vhost/router.go:104-108 | in the sorted leaf the first location that is a prefix of the path is the longest one of the whole table |
| VhostLookup.AnswerUnique | pkg/util/vhost/http.go:189-234 | the best route of a table with unique keys is unique |
| VhostLookup.MatchIff | pkg/util/vhost/http.go:189-234 | a domain answers for a host if and only if it is the host, "*", or "*." and an end of the host behind a dot that has one more dot |
| VhostLookup.LevelOrder | pkg/util/vhost/http.go:203-234 | of two that answer the host itself comes first, and otherwise the longer one |
| VhostLookup.BestMeans | pkg/util/vhost/http.go:189-234 | the answer has the most specific domain, under it the request's own user if any route has, and for that user the longest location |
| VhostLookup.NextWildcard | pkg/util/vhost/http.go:213-226 | replacing the first remaining label by `*` gives exactly the next less specific wildcard of the host |
| VhostLookup.FindRouter | pkg/util/vhost/http.go:190-201 | for one domain: the user's own longest location, or else the longest one for any user |
| VhostLookup.HttpReverseProxy.GetVhost | pkg/util/vhost/http.go:189-234 | returns the best route of the flat table: domain specificity first, then user, then location; none if and only if no route matches |
| VhostLookup.HttpReverseProxy.Register | pkg/util/vhost/http.go:126-132 | adds the route or reports the conflict |
| VhostLookup.HttpReverseProxy.UnRegister | pkg/util/vhost/http.go:135-137 | removes exactly the route of that key |
| VhostLookup.Muxer.Listen | pkg/util/vhost/vhost.go:94-111 | adds the listener or reports the conflict |
| VhostLookup.Muxer.CloseListener | pkg/util/vhost/vhost.go:264-268 | removes exactly the route of the listener |
| VhostLookup.Muxer.GetListener | pkg/util/vhost/vhost.go:113-156 | returns the listener of the best route of the flat table |
| VhostLookup.SameChoice | pkg/util/vhost/vhost.go:113-156 | on the same table the muxer and the HTTP proxy make the same choice |
| SubdomainNamespace.CheckForSvr | pkg/config/proxy.go:448-470 | accepts if and only if some domain is given, no custom domain is reserved and the subdomain is allowed |
| SubdomainNamespace.NamespaceIsReserved | pkg/config/proxy.go:453-459 | every subdomain's full name and the wildcard over the subdomain host are refused as custom domains |
| SubdomainNamespace.CustomDomainsStayOutside | pkg/config/proxy.go:453-467 | an accepted custom domain matches a subdomain's host not at all, or less specifically than the subdomain host's own wildcard |
| SubdomainNamespace.SubdomainAnswersItselfIff | pkg/util/util/http.go:54-69 | whatever accepted configurations are registered, a subdomain's requests are answered by its own routes, if and only if its full name is spelt the way requests arrive |
| SubdomainNamespace.NamespaceSafeIff | pkg/util/vhost/vhost.go:181 | no accepted custom domain gets ahead of the subdomain host's wildcard for any subdomain if and only if the subdomain host is spelt the way requests arrive |
| SubdomainNamespace.SeenIsAccepted | pkg/config/proxy.go:453-459 | if the subdomain host is not spelt the way requests arrive, the name that requests for any subdomain arrive as is accepted as a custom domain |
| SubdomainNamespace.OwnRouteFoundIff | server/proxy/http.go:97-99 | a subdomain's route is found by its own requests if and only if subdomain and host are spelt the way they arrive |
| SubdomainNamespace.ReservedIff | pkg/config/proxy.go:453-457 | a custom domain is refused if and only if the text of the subdomain host stands in it with a dot somewhere before or after |
| SubdomainNamespace.UnderIsReserved | pkg/config/proxy.go:453-459 | every domain below the subdomain host is refused, at any depth |
| SubdomainNamespace.WronglyRefusedIff | pkg/config/proxy.go:454-457 | exactly which domains are refused although they do not lie below the subdomain host |
| SubdomainNamespace.RefusedInTheMiddle | pkg/config/proxy.go:454-457 | one such domain: the subdomain host stands in the middle |
| SubdomainNamespace.FollowedIsRefused | pkg/config/proxy.go:454-457 | a domain with labels behind the subdomain host is refused, and wrongly unless it happens to end below it again |
| SubdomainNamespace.RefusesOnlyNamespaceIff | pkg/config/proxy.go:453-459 | the check refuses only domains below the subdomain host if and only if there is no subdomain host |
| HttpProxies.CloseUndoesRun | server/proxy/http.go:38-132 | Close after a successful Run restores routes and groups completely |
| HttpProxies.WantedIff | server/proxy/http.go:38-124 | a key is registered if and only if its domain is a non-empty custom one or the full subdomain, its location a configured one or the empty one if there is none, and its user the configured one |
| HttpProxies.DirectRunIff | server/proxy/http.go:66-124 | an ungrouped Run succeeds if and only if no key it asks for is registered and it asks for none twice |
| HttpProxies.DirectRunRegisters | server/proxy/http.go:66-124 | a successful ungrouped Run adds a route for exactly the keys asked for, and nothing else changes |
| HttpProxies.GroupedRunIff | server/proxy/http.go:66-124 | a grouped Run for one key succeeds if and only if the group is new and the key free, or route and group key agree and the name is new |
| HttpProxies.GroupedRunRegisters | server/proxy/http.go:66-124 | a successful grouped Run asks for one key at most and makes the proxy a member under it, and no other route or group changes |
| HttpProxies.HttpProxy.RegisterRow | server/proxy/http.go:66-95 | one domain with all its locations is registered, or the run is refused |
| HttpProxies.HttpProxy.Run | server/proxy/http.go:38-132 | all that the configuration asks for is registered or nothing changes: which keys, and when it is refused, in terms of the configuration and the old table |
| HttpProxies.HttpProxy.Rollback | server/proxy/http.go:54-58 | the deferred rollback restores the state before Run |
| HttpProxies.HttpProxy.Close | server/proxy/http.go:177-182 | exactly this proxy's routes or group membership disappear |
| HttpWorld.AlwaysInv | server/proxy/http.go:66-182 | in every interleaving of single registrations and close functions of any number of proxies, tables and groups belong to the proxies that registered them |
| HttpWorld.TableIsWhatIsRegistered | server/proxy/http.go:66-182 | at every moment of every run the table is the union of what open, opening and closing proxies have registered |
| HttpWorld.AllOrNothing | server/proxy/http.go:54-58 | an open proxy serves every key it wants and one that failed or closed has left nothing, whatever others did meanwhile |
| HttpWorld.RefusedIff | server/group/http.go:92-115 | a registration is refused exactly for what is registered at that moment: a peer of the group that disagrees, or anyone who has the key |
| HttpWorld.BothCanBeRefused | server/proxy/http.go:66-124 | a run in which two proxies refuse each other and nothing is registered, although either alone is accepted |
| HttpWorld.RunAlone | server/proxy/http.go:66-124 | without interruption the registrations of one Run have the effect of the atomic Run |
| HttpWorld.CloseAlone | server/proxy/http.go:177-182 | without interruption the close functions of one proxy have the effect of the atomic Close |
| HttpWorld.LookupsDependOnRegistered | server/proxy/http.go:66-182 | two histories after which the same keys are registered answer every request alike, whatever was refused and undone |
| HttpWorld.StepTouchesOnlyItself | server/proxy/http.go:54-58 | no step of one proxy, rollback and close included, takes a key from another |
| HttpGroups.HttpGroupController.Register | server/group/http.go:30-124 | the first member sets the group and its route, later ones must agree; the exact error and the exact new state |
| HttpGroups.HttpGroupController.RegisterFirst | server/group/http.go:92-105 | the first member fails exactly if the route is taken, and otherwise brings the route and the group's parameters |
| HttpGroups.HttpGroupController.RegisterNext | server/group/http.go:106-123 | a later member joins unless route, key or name disagree; the exact error |
| HttpGroups.HttpGroupController.UnRegister | server/group/http.go:47-60 | for any group and name: the member leaves, the route goes with the last one, and a group left empty by a failed registration goes with the route without parameters |
| HttpGroups.HttpGroupController.CreateConn | server/group/http.go:144-165 | the counter is bumped with 64-bit wrap-around and its value decides the member, for every value |
| HttpGroups.Choose | server/group/http.go:153-164 | below 2^63 the member at the value modulo their number; from there on the first member or an index out of range, exactly |
| HttpGroups.ChoiceByRemainder | server/group/http.go:153-164 | the member is the one at the truncated remainder of the signed counter, and a negative remainder is out of range |
| HttpGroups.Serve | server/group/http.go:144-165 | consecutive requests get the members of consecutive counter values, across the wrap-around |
| HttpGroups.RotationServes | server/group/http.go:144-165 | below 2^63 those are the members of the rotation |
| HttpGroups.FairRotation | server/group/http.go:144-165 | k times n consecutive requests select each of n members exactly k times |
| HttpGroups.LeaveUndoesJoin | server/group/http.go:117-142 | a member that joins and leaves leaves the group as it was |
| HttpGroups.LeftValid | server/group/http.go:126-142 | the name list stays duplicate-free and equal to the keys of the connection functions |
| HttpGroups.DropName | server/group/http.go:130-135 | the slice edit removes the first occurrence of the name |
| PortSpec.GrantKeeps | server/ports/ports.go:109-113 | a grant of any allowed port, free or held, keeps free and used ports a partition of the allowed ones |
| PortSpec.ReleaseKeeps | server/ports/ports.go:164-175 | a release keeps the partition and every used record open and on its own port |
| PortSpec.RunKeeps | server/ports/ports.go:45-189 | the partition and the records are right after any sequence of operations, whatever the operating system offers |
| PortSpec.RefusalsExact | server/ports/ports.go:120-138 | for a requested port: not allowed, already used, unavailable and granted each if and only if |
| PortSpec.RandomGrantIff | server/ports/ports.go:87-119 | a request for any port gets the reserved port if that is available, and else the first available of the first five tried |
| PortSpec.RandomFailureMeans | server/ports/ports.go:87-119 | a failed random request means that five free ports, or all if there are fewer, were unavailable, and so was the reserved one |
| PortSpec.DoubleGrant | server/ports/ports.go:87-98 | a used port is granted again if and only if the oracle lets the name's reserved port through while it is held |
| PortSpec.ReservationSurvivesIff | server/ports/ports.go:177-189 | whatever others acquire and release, a reservation released at some time is still there, unchanged, if and only if no cleaning pass came more than 24 hours later |
| PortSpec.HoldSurvivesIff | server/ports/ports.go:68-175 | until its port is released a reservation stays open, whatever others do, and the port stays with its holder if and only if it is never granted again |
| PortSpec.StickyPort | server/ports/ports.go:87-98 | over a whole run, whatever the operating system offers, a name that got a port gets the same port on its next random request within a day of its release, if it is available |
| PortSpec.CleanerSparesHeld | server/ports/ports.go:177-189 | the reservation of a port still held through it is never dropped |
| PortManager.Manager.Acquire | server/ports/ports.go:68-140 | the shared-record implementation grants and refuses exactly as the allocator on values |
| PortManager.Manager.Release | server/ports/ports.go:164-175 | the same for a release, whose one write also closes the reservation that shares the record |
| PortManager.Manager.CleanReservedPorts | server/ports/ports.go:177-189 | the same for one pass of the cleaner |
| PortManager.Manager.DropExpired | server/ports/ports.go:181-187 | deleting while iterating drops exactly the expired reservations |
| PortManager.TryPorts | server/ports/ports.go:100-119 | the bounded probing loop finds the first available port among the first five |
| PortManager.Manager.Released | server/ports/ports.go:164-175 | closing the shared record of a released port changes its own reservation and no other |
| TcpWorld.AlwaysBase | server/group/tcp.go:95-179 | after any run, whatever the operating system offers, every used port is held for a proxy or group that claims it, or is leaked |
| TcpWorld.AlwaysInv | server/group/tcp.go:95-179 | as long as no held port is granted again, every proxy and group also holds the port it claims |
| TcpWorld.PortsAccounted | server/proxy/tcp.go:32-82 | as long as no held port is granted again, used ports are exactly one per ungrouped proxy, one per non-empty group, and the leaked ones |
| TcpWorld.LeakedIff | server/group/tcp.go:98-108 | in any run a port is counted as leaked, whether or not a group still claims it, if and only if some group's listen failed after acquiring it free and no proxy or group has got or released it since |
| TcpWorld.UnclaimedInUseIff | server/group/tcp.go:98-108 | in any run a port that no proxy and no group claims is in use if and only if some group's listen failed after acquiring it free and no proxy or group has got or released it since |
| TcpWorld.LeakedIsUnclaimed | server/group/tcp.go:98-108 | as long as no held port is granted again, the leaked ports are exactly those in use that nobody claims |
| TcpWorld.OnePortEachIff | server/group/tcp.go:95-179 | at every point of a run used ports are one per ungrouped proxy plus one per non-empty group if and only if no grant went to a held port or was lost to a failed listen |
| TcpWorld.LaterMemberIff | server/group/tcp.go:123-138 | a later member joins if and only if address, port and key are the group's; each of the three errors has its own exact condition, and a refusal changes nothing |
| TcpWorld.FirstMemberIff | server/group/tcp.go:95-122 | a first member opens the group if and only if a port is granted and net.Listen works, and the group takes what it asked for |
| TcpWorld.MembersAskedForTheSame | server/group/tcp.go:95-141 | in every run each member of a group joined it with the group's address, port and key |
| TcpWorld.PortsFollow | server/ports/ports.go:68-189 | each step is one grant, one release, one pass of the cleaner, or nothing, to the ports |
| PortSharing.TakenTwiceIff | server/ports/ports.go:87-98 | a held port is granted again exactly to the name whose reservation it is, on a request for any port, when it is offered |
| PortSharing.WhoSharesItsPort | server/group/tcp.go:100-117 | if bound ports are refused, only a proxy that does not listen yet or a group on any port can lose its port to another |
| PortSharing.SharingHappens | server/group/tcp.go:100-117 | a concrete run with no failed listen and every bound port refused in which a group and a proxy share a port, and then the running proxy's port is counted as free |
| TcpProxies.TcpGroupCtl.Listen | server/group/tcp.go:46-141 | the first member acquires, later ones must ask for the same address, port and key; the exact error and new state |
| TcpProxies.TcpGroupCtl.CloseListener | server/group/tcp.go:164-179 | the last member returns the group's real port and removes the group |
| TcpProxies.TcpProxy.RunAlone | server/proxy/tcp.go:49-67 | opens on the granted port; a failure releases exactly the port that was granted, whoever held it before |
| TcpProxies.TcpProxy.Run | server/proxy/tcp.go:32-71 | no port stays in use for a proxy that failed, except a group's whose first listen failed |
| TcpProxies.TcpProxy.Close | server/proxy/tcp.go:77-82 | returns the proxy's own port, or leaves its group |
| TcpProxies.UndoGrantIff | server/proxy/tcp.go:53-57 | releasing a port right after its grant restores free and used ports if and only if the port was free |
| DateCounter.StandardDateCounter.Rotate | pkg/util/metric/date_counter.go:114-134 | on any clock the slots move by the whole days computed, and a right step keeps slot i the net amount of i calendar days ago |
| DateCounter.RotateRightIff | pkg/util/metric/date_counter.go:114-134 | rotating is right for every history if and only if code and calendar count the same days, or both count at least as many as are kept, or it stays the same day and the code counts none |
| DateCounter.StandardDateCounter.Inc | pkg/util/metric/date_counter.go:80-85 | on any clock rotates and adds to slot 0 with wrap-around; after a right step the slots stay right |
| DateCounter.StandardDateCounter.Dec | pkg/util/metric/date_counter.go:87-92 | on any clock rotates and subtracts from slot 0 with wrap-around; after a right step the slots stay right |
| DateCounter.StandardDateCounter.TodayCount | pkg/util/metric/date_counter.go:57-63 | on any clock slot 0 after rotating; after a right step the net amount recorded today |
| DateCounter.StandardDateCounter.GetLastDaysCount | pkg/util/metric/date_counter.go:65-78 | on any clock the first slots after rotating, clipped to the reserved ones; after a right step the net amounts of the last days |
| DateCounter.StandardDateCounter.Snapshot | pkg/util/metric/date_counter.go:94-102 | the slots are copied under the current date |
| DateCounter.RotateTracks | pkg/util/metric/date_counter.go:118-133 | shifting by the days passed keeps the slots right, whatever the gap |
| DateCounter.RecordTracks | pkg/util/metric/date_counter.go:80-92 | adding to slot 0 keeps the slots right, with 64-bit wrap-around |
| DateCounter.AnyHistory | pkg/util/metric/date_counter.go:57-134 | after any sequence of operations on any dates the slots are the computed ones, and right if every recording operation is in place |
| DateCounter.RightByOwnDays | pkg/util/metric/date_counter.go:57-134 | on any clock slot i is the net amount of exactly i days ago by the days the code has counted |
| DateCounter.RightAtTheEndIff | pkg/util/metric/date_counter.go:57-134 | after any run on any clock the slots are right, whatever was recorded, if and only if from each recording operation to the last code and calendar count the same days, or neither count is one that is kept |
| DateCounter.RightStepsInPlace | pkg/util/metric/date_counter.go:57-134 | a run of right steps meets that condition |
| DateCounter.ClockChange | pkg/util/metric/date_counter.go:116 | a step to a later date, off by less than a day, is right if and only if it is not short or goes beyond the days kept |
| DateCounter.SnapshotFaithfulIff | pkg/util/metric/date_counter.go:94-102 | a snapshot, taken earlier or later, is right for every history if and only if it is taken on the day of the last update |
| Backoff.ReconnectMeans | client/service.go:190-206 | the first three reconnects of a minute wait less than half a second, the later ones 1, 2, 4, ... seconds with their jitter, and a new minute starts again |
| Backoff.LoginMeans | client/service.go:208-222 | the k-th failed login in a row waits 1, 2, 4, 8, 16 and then 20 seconds with its jitter |
| Backoff.JitterBounds | pkg/util/util/util.go:115-127 | the bounds of a jittered sleep, with the source's integer rounding |
| Backoff.RandomSleep | pkg/util/util/util.go:115-127 | the sleep lies between the two ratios of the duration, the upper one excluded, and is the lower one if they do not ascend |
| Backoff.ReconnectKeeps | client/service.go:190-206 | the loop invariant, and no reconnect wait above 70.336 seconds; the first three below half a second |
| Backoff.LoginKeeps | client/service.go:208-222 | the loop invariant, and no login wait above 21.98 seconds |
| Backoff.BoundIsAttained | client/service.go:190-206 | a run whose reconnect wait is exactly 70.336 seconds, so the bound is the best one |
| Backoff.KeepControllerWorking | client/service.go:171-236 | for any outcome of every login and any chance, no reconnect wait reaches 70.4 seconds, and the login waits grow as they must up to 22 |
| AdminConfig.ReadBack | client/admin_api.go:240-331 | reading after an upload gives the body's trimmed rows without token rows, whatever was stored before |
| AdminConfig.TokenAfterUpload | client/admin_api.go:283-324 | an upload keeps the stored token row if the body has a `[common]` row, and loses it otherwise |
| AdminConfig.TokenSurvivesIff | client/admin_api.go:283-324 | over any number of uploads the token row survives if and only if each has a `[common]` row |
| AdminConfig.ReadMeans | client/admin_api.go:240-250 | reading shows every row that is no token row, but for the white space at its ends, in order, and nothing else |
| AdminConfig.UploadMeans | client/admin_api.go:283-324 | the file then has every row of the body that is no token row, trimmed and in order, the stored token directly behind each `[common]` row, and nothing else |
| AdminConfig.RowsSurvive | client/admin_api.go:302-324 | no such row of an upload is lost from the file |
| AdminConfig.RowsAreShown | client/admin_api.go:240-331 | and none from what the next read shows |
| AdminConfig.StoredTokenIff | client/admin_api.go:290-300 | the token kept is the first token row of the file, trimmed |
| AdminConfig.HasCommonIff | client/admin_api.go:311-321 | a body has a `[common]` row if some row starts so but for white space, and only then |
| Text.TrimSpaceMeans | client/admin_api.go:243 | trimming removes white space at the ends and nothing else |
| Text.TrimSpaceUnique | client/admin_api.go:243 | it is the only text without white space at its ends that the row is, but for white space around |
| AdminConfig.AdminService.ApiGetConfig | client/admin_api.go:213-250 | returns the trimmed rows without token rows, and changes nothing |
| AdminConfig.AdminService.ApiPutConfig | client/admin_api.go:255-331 | refuses an unreadable or empty body and an unreadable file; otherwise stores the body with the old token row, or reports a failed write, which may leave anything |
| AdminConfig.NonTokenRows | client/admin_api.go:240-248 | the loop drops exactly the token rows |
| AdminConfig.FindToken | client/admin_api.go:290-300 | the loop finds the first token row |
| AdminConfig.WithToken | client/admin_api.go:311-321 | the loop puts the token row behind each `[common]` row |

## Left out

- Sockets, TLS, KCP, WebSocket, yamux, encryption and compression: connections are opaque identifiers.
- The reverse proxy copied from the Go standard library, the encoding of messages, and the UDP forwarder.
- Health checking itself: health reports are arbitrary events.
- NAT hole punching, visitors, client plugins and server plugins.
- INI loading, the dashboard, metrics exporters and logging; authentication is the answer of an oracle.
- Fair scheduling: `CanEndIff`, `CanFinishIff` and `CanBeginIff` are about what can still happen, not about what does.
- UDP proxies, which release their port twice (server/proxy/udp.go:243).
- The strings returned to the client, such as remote addresses, and error texts.
- The control sessions, the client's control loop and the wrapper protocol are step systems on values: aliasing of messages is not captured; `ServerObjects` and `ClientManager` have the objects.
- HTTP and TCP groups are values inside their controllers, so a pointer to a group kept across a removal is not captured.
- ServerControl.ArriveKeeps: which session a work connection reaches is left open, because the lookup by run id may be old by the time the connection is pooled.
- ProxyLifecycle.ClosingIsSafeIff: is about the traffic of one name; the queue positions of other names do not matter to it by WorldRefinesLife.
- HttpGroups.HttpGroupController.CreateConn: where the code would index out of range and panic the model returns OutOfRange.
- HttpGroups.HttpGroupController.UnRegister: promises consistency of groups and routes only if no route without any parameter is registered when a group left empty is removed; no proxy registers such a route.
- TcpProxies.TcpGroupCtl.Listen: the group's listener and its accept channel are not modelled beyond whether `net.Listen` works.
- DateCounter.StandardDateCounter.Rotate: `time.Duration` ends at 292 years; spans are unbounded here.
- SubdomainNamespace.SubdomainAnswersItselfIff: letters other than ASCII have no case, and a port in the request's host is not modelled.
