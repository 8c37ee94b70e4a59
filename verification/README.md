# A verified model of the mylife home automation runtime

The project models the parts of mylife that keep state and talk to each other, and proves what
they keep. Each Dafny file is one component; `Sequences` and `OrderedMap` hold what removing from
lists and assigning to the keys of an object mean, for the components that do it.

- **The core** (`Configuration`, `Core`, `CoreView`, `CoreManager`, `Restart`): registries of
  plugins, hardware and links, the object repository, link listeners and the persisted maps.
  `Core` is the state as a value, `CoreManager.Manager` the same state changed in place and proved
  against it, `CoreView` what a client sees in the three listings.
- **Deployment** (`Deployment`): the designer's diff between a running and an edited configuration
  and the list of operations that applies it. The condition under which a plan goes through is exact. The
  source tests the same two conditions twice where a test of the source plugin and the destination
  hardware would be expected; the model follows the code.
- **Cascades** (`Cascade`, `Wiring`): attribute changes that run links that execute actions that
  change attributes. The depth of the JavaScript stack is a parameter, so that termination is a
  statement about every depth; `Wiring` derives the handlers from a core state.
- **Replication** (`Text`, `NetStructure`, `Replication`, `Mirror`, `Command`, `Watching`, `Network`):
  state in nicknames, commands in channel messages, the watcher's channel counts and lifetime, and
  all of it together in `Network`. The server is first-in-first-out wires plus the set of joined channels. NICK, JOIN, PART and PRIVMSG are those of
  RFC 1459, sections 4.1.2, 4.2.1, 4.2.2 and 4.4.1.
- **The designer's schema** (`Schema`): typed members, links, hardware reload.
- **The C runtime** (`IntrusiveList`, `Gpio`, `EventLoop`): linked list on the heap, pin
  allocator, event loop over a copy of its handles.
- **The page** (`UiMirror`, `Gesture`): attributes read by compiled index, press recognizer.

Environment assumptions are stated as preconditions: ids and values carry no separator of the
text they travel in; no id is shared by a plugin and a hardware; no id is published twice;
classes have distinct member names (the C constructors assert it); nicks reach registered clients
only. For bars in link fields, ids and values, shared ids, repeated publications, repeated names and
early nicks a lemma says what breaks without the assumption. One assumption is built into the maps: no id is a
name every JavaScript object inherits, such as `constructor`, because the registries are plain objects
and take such a name for an entry that exists.

`dafny verify dfyconfig.toml` checks the project.

## Model

| member | source | states |
|---|---|---|
| Configuration.MakeIdInjective | nodejs/mylife-home-core/links.js:5-7 | Link ids are the four fields joined by bars; for bar-free fields two links with the same id are the same link. |
| Configuration.OwnIdIff | nodejs/mylife-home-core/links.js:5-7 | A link shares its id with no other link, of any fields, exactly when its own fields hold no bar. |
| Core.InvSurvivesIff | nodejs/mylife-home-core/manager.js:82-199 | The whole invariant (publication, binding, one listener for each link, the persisted copy) survives a request exactly when the request is refused or does not reuse an id across plugins and hardware. |
| Core.RefusedIff | nodejs/mylife-home-core/manager.js:82-199 | Which requests are refused and with which reason: an id taken, a type unknown, an end missing, a component some link still names, nothing under the id; a refused request changes nothing. |
| Core.PublicationSurvivesIff | nodejs/mylife-home-core/netobject.js:460-476 | After a request every running component is still published under its id with its own object exactly when the request is refused or does not give a component the id of one of the other kind: a new object never has the handle of an old one. |
| Core.BindingSurvivesIff | nodejs/mylife-home-core/links.js:9-41 | After a request both ends of every link are published and bound to the published objects exactly when the request is refused or does not give the id of a linked component to a component of the other kind; reusing the id of an unlinked one leaves every link bound. |
| Core.ReachableInv | nodejs/mylife-home-core/manager.js:58-199 | After every run of requests none of which is accepted with an id of the other kind, refused ones included: each component is published under its id with its own object and nothing else is published; both ends of each running link are published and the link is bound to the objects the repository holds; each running link has exactly one attribute listener; the persisted maps equal the running configurations. |
| Core.PrefixesKeepInvIff | nodejs/mylife-home-core/manager.js:82-199 | The invariant holds after every prefix of a run exactly when no accepted request of the run reuses an id across plugins and hardware. |
| Core.AlwaysPersisted | nodejs/mylife-home-core/data.js:59-108 | The persisted maps equal the running configurations after every run of requests at all, whatever the ids. |
| Core.SharedIdLosesHardware | nodejs/mylife-home-core/netobject.js:460-476 | A concrete run showing why ids must not be shared: hardware and plugin with one id, plugin removed, and the hardware still runs but can no longer be linked. |
| CoreView.StepRefines | nodejs/mylife-home-core/manager.js:71-199 | A request is accepted or refused, and changes the three listings, as a function of the listings alone. |
| CoreView.AddPluginsIff | nodejs/mylife-home-core/manager.js:82-89 | Adding a list of plugins with new ids goes through exactly when every type is known. |
| CoreView.AddLinksIff | nodejs/mylife-home-core/manager.js:182-189 | Adding a list of links with new ids goes through exactly when both ends of each are known. |
| CoreView.RemovePluginsIff | nodejs/mylife-home-core/manager.js:91-102 | Removing a list of plugins goes through exactly when no running link names one of them, and then removes exactly those. |
| CoreManager.Manager.CheckLink | nodejs/mylife-home-core/manager.js:58-69 | Walking the running links in any order finds out exactly whether one of them names the component. |
| CoreManager.Manager.Request | nodejs/mylife-home-core/manager.js:82-199 | Every REST request performs exactly the modelled step, the persisted maps included. |
| CoreManager.Manager.Initialize | nodejs/mylife-home-core/manager.js:10-32 | Replays the persisted maps hardware first, then plugins, then links, for any enumeration orders, stopping at an exception and saving nothing. |
| CoreManager.Manager.GetLinks | nodejs/mylife-home-core/manager.js:164-180 | Lists exactly the running links, each once, with the computed id. |
| Restart.RestartReplay | nodejs/mylife-home-core/manager.js:10-32 | From every state that keeps the invariant, replaying its persisted maps in every enumeration order succeeds, gives the same plugins, hardware and links, and keeps the invariant. |
| Restart.RestartAfterAnyRun | nodejs/mylife-home-core/data.js:59-108 | The same after every run of requests from an empty core. |
| Deployment.DeepWithout | nodejs/mylife-home-core-designer/componentManager.js:131-142 | The loop computes the items that are deep-equal to none of the other list, in order (WithoutInOrder). |
| Deployment.FindById | nodejs/mylife-home-core-designer/componentManager.js:110-119 | Finds an item with the id exactly when there is one. |
| Deployment.WithoutContents | nodejs/mylife-home-core-designer/componentManager.js:131-149 | The difference of two lists contains exactly the items of the first that are not in the second. |
| Deployment.WithoutInOrder | nodejs/mylife-home-core-designer/componentManager.js:131-149 | Of two items that the other list lacks, the earlier one comes first in the difference. |
| Deployment.DoMerge | nodejs/mylife-home-core-designer/componentManager.js:56-108 | The merge with its four-fold re-creation test computes the specified plan. |
| Deployment.LinkPlanContents | nodejs/mylife-home-core-designer/componentManager.js:60-94 | Links to destroy: old links that are not in the new configuration or are forced; links to create: new links that are not in the old one or are forced; no id twice in either list. |
| Deployment.ForcedBehind | nodejs/mylife-home-core-designer/componentManager.js:75-94 | The links that are done again stand behind both link lists, the same in both, in the order of the old links. |
| Deployment.TaskList | nodejs/mylife-home-core-designer/componentManager.js:151-199 | Assigning every operation to its key: nothing is lost exactly when the keys are distinct; otherwise for each key the last operation survives, at the place of the first. |
| Deployment.SharedKeyIff | nodejs/mylife-home-core-designer/componentManager.js:181-199 | Two operations have one key exactly when both create or both destroy and they name the same id, whatever their kinds. |
| OrderedMap.AssignedMeaning | nodejs/mylife-home-core-designer/componentManager.js:181-199 | An object used as a map holds, for each key, the last value assigned, in the order in which the keys first appeared. |
| Deployment.SharedIdDropsTask | nodejs/mylife-home-core-designer/componentManager.js:190-199 | A concrete run: a plugin and a hardware with one id share a key, the deployment reports success and the plugin is missing. |
| Deployment.PlanKeysDistinct | nodejs/mylife-home-core-designer/componentManager.js:181-199 | Between well-formed configurations no task of the plan overwrites another. |
| Deployment.DeployIff | nodejs/mylife-home-core-designer/componentManager.js:56-163 | From every state of the core and its listing, and for every edited configuration with distinct ids, running the plan goes through if and only if no unchanged link hangs (its source plugin or destination hardware is destroyed while neither its source hardware nor its destination plugin is), the core knows every plugin type, and both ends of every link are in the configuration; then the core runs exactly the new plugins, hardware and links. The invariant holds either way. |
| Deployment.RefusedDeploymentLeaves | nodejs/mylife-home-core-designer/componentManager.js:151-163 | What a refused deployment leaves: everything both configurations share and every link the plan does not touch. When a link hangs nothing was created; when a type is unknown everything that had to go is gone and at most plugins were created; when a link has no end all components are in place and some links were added. |
| Deployment.RefusedAgain | nodejs/mylife-home-core-designer/componentManager.js:44-163 | Repeating a refused deployment, from a fresh listing of what it left, is refused again. |
| Deployment.DeployPrefixInv | nodejs/mylife-home-core-designer/componentManager.js:151-163 | Referential integrity and the persisted copy hold after every prefix of a deployment. |
| Deployment.FirstDeployment | nodejs/mylife-home-core-designer/componentManager.js:151-163 | A configuration with distinct ids can be deployed on an empty core exactly when its plugin types are known and both ends of its links are in it; the core then runs exactly it. |
| Deployment.RemoveEverything | nodejs/mylife-home-core-designer/componentManager.js:151-163 | From every running configuration the deployment of the empty one goes through and leaves nothing running. |
| Deployment.EditedSourcePluginIsRefused | nodejs/mylife-home-core-designer/componentManager.js:75-93 | A concrete run: deployed on an empty core, a plugin that is only the source of a link to hardware has its settings edited; the second deployment is refused, and the old plugin and its link are still there. |
| CoreManager.Manager.Deploy | nodejs/mylife-home-core-designer/componentManager.js:44-54 | Listing, merging and applying on the running core goes through exactly for accepted edits (nothing hangs, types and ends of links known) and then runs the new configuration; otherwise it leaves what a refused plan leaves. |
| Cascade.Runtime.SetAttribute | nodejs/mylife-home-core/netobject.js:121-133 | The nested, in-place cascade computes the specified result: values, exception or exhausted stack. |
| Cascade.CascadeReach | nodejs/mylife-home-core/plugins/hubBool.js:24-26 | When the value meets no relay and nothing on its way refuses it, setting an attribute terminates if and only if the links into hubs and lights form no reachable cycle; then every output reached along them holds the value and nothing else changed. |
| Cascade.ThrowsIff | nodejs/mylife-home-core/netobject.js:79-176 | Without a relay and without a reachable cycle, setting an attribute throws if and only if the attribute does not take the value, or along hubs and lights it meets a link whose component or action is missing or does not take it. What was set before the first refusal stays set, along exactly the links followed until then, and nothing else changes. |
| Cascade.SetAttributeFloods | nodejs/mylife-home-core/plugins/light.js:24-26 | Exact stack need, remote components included: such a cascade overflows a stack of depth n exactly when n links into hubs and lights can be followed in a row, and it never throws. |
| Cascade.SetFrame | nodejs/mylife-home-core/netobject.js:121-133 | Whatever the plugins, a port that cannot be reached keeps its value, also when the cascade throws. |
| Cascade.SetReturns | nodejs/mylife-home-core/netobject.js:79-133 | When every link below the source fits (both members exist and the action takes one argument of the attribute's type, remote components included), a cascade returns normally on any stack deeper than every path. |
| Cascade.RelayParity | nodejs/mylife-home-core/plugins/stepRelay.js:26-34 | A step relay fed only at input through hubs and lights: a cascade of the text on from an acyclic source returns, and turns the relay from on to off or from off to on exactly when the number of all link paths from the source to it is odd; any other value leaves it alone. |
| Cascade.AllPathsCounted | nodejs/mylife-home-core/links.js:19-29 | Without a reachable cycle the number used for the parity is the size of the set of all link paths, a path being a sequence of handler positions that ends at the first link to the relay. |
| Cascade.AllPathsAtAnyDepth | nodejs/mylife-home-core/links.js:19-29 | Counting paths with any stack deeper than the number of linked ports gives the same number. |
| Cascade.RelayCommands | nodejs/mylife-home-core/plugins/stepRelay.js:36-57 | The actions on and off, given the text on, leave the relay at the text of their own name, and do nothing at all when it already is or the value is another. |
| Wiring.ChangeRunsItsLinks | nodejs/mylife-home-core/links.js:19-29 | In every state that keeps the invariant, an attribute change runs each running link that starts there exactly once and no other. |
| Wiring.LinksRunInOrder | nodejs/mylife-home-core/links.js:19-29 | The links of an attribute run in the order in which their listeners were registered. |
| Wiring.NewLinkRunsLast | nodejs/mylife-home-core/links.js:9-41 | Creating a link adds it behind the links that run on a change of its source attribute, and to no other attribute. |
| Wiring.HandlersAreLinks | nodejs/mylife-home-core/links.js:21-28 | The cascade net of a core state has, for each attribute, one handler per link that starts there, leading to that link's action. |
| Text.SplitJoin | nodejs/mylife-home-core/netobject.js:304-313 | Splitting at a separator undoes joining pieces that do not contain it. |
| Text.NextTokenOfJoin | mylife-home-components/src/net_repository.c:342-351 | One strtok_r on joined words reads the first word and leaves the others. |
| Text.ScanIntText | mylife-home-components/src/net_repository.c:431-437 | Scanning a rendered integer consumes all of it and gives it back. |
| Text.IntTextIff | mylife-home-components/src/net_repository.c:496-505 | The rendering of an integer is the only plain text of that value: digits without a leading zero unless the value is below ten, and a minus sign exactly for negative numbers. |
| Text.ScanMeaning | mylife-home-components/src/net_repository.c:431-437 | On any text: white space, at most one sign and all digits that follow are read, the rest is the tail; without a digit there nothing is read. |
| NetStructure.FindsItself | mylife-home-components/src/net_structure.c:203-223 | With distinct names the lookup finds every member. |
| NetStructure.TextOfIff | mylife-home-components/src/net_repository.c:484-505 | What stands for a value in a nick: the word of an enumeration, the plain digits of a number, and no other text. |
| NetStructure.AdmittedPassesCheck | nodejs/mylife-home-core/netobject.js:79-101 | A value its type admits passes the core's argument check in text form. |
| Mirror.LocalObject.MakeNick | mylife-home-components/src/net_repository.c:455-509 | Appending member after member builds the id and the attribute texts in class order, separated by bars. |
| Mirror.NickSpells | mylife-home-components/src/net_repository.c:455-509 | In the nick the text of each attribute stands at its place among the attributes, a number in plain digits, null for one that is not set, and there is no other text. |
| Mirror.LocalObject.AttributeChange | mylife-home-components/src/net_object.c:204-232 | A change of an existing attribute stores the value, makes the nick with all current values and sends it exactly when connected. |
| Mirror.RemoteObject.SetAttributes | nodejs/mylife-home-core/netobject.js:288-302 | The loop with its own index into the pieces assigns them in class order and stops at the first exception. |
| Mirror.NickRoundTrip | mylife-home-components/src/net_repository.c:455-509 | Reading the nick of a fully set object mirrors every attribute exactly, whatever the mirror held before. |
| Mirror.BarredIdIsNotHeard | nodejs/mylife-home-core/netobject.js:331-337 | An object whose id has a bar takes no nick at all. |
| Mirror.ReadsExactlyIff | nodejs/mylife-home-core/netobject.js:288-341 | For values of their types, whatever characters they hold: every mirror reads the published nick without an exception and exactly, if and only if no attribute's text holds a bar. |
| Mirror.ShadowedAttributeThrows | nodejs/mylife-home-core/netobject.js:68-77 | An attribute behind an action of the same name makes every assignment of pieces throw. |
| Mirror.MirrorConsistency | nodejs/mylife-home-core/netobject.js:331-341 | In every run of attribute changes and first-in-first-out deliveries the mirror equals the values before the changes still on the wire; once the wire is drained it equals the current ones. |
| Replication.RunAgrees | nodejs/mylife-home-core/netobject.js:331-341 | The same for any full-state protocol whose announcements read back correctly. |
| Command.BuildMessage | nodejs/mylife-home-core/netobject.js:426-434 | The core renders id, action and arguments separated by spaces. |
| Command.SidesAgreeOnAddress | mylife-home-components/src/net_repository.c:186-198 | The C comparison up to the bar and the JavaScript one recognize the same nicks of a bar-free id. |
| Command.FillArguments | mylife-home-components/src/net_repository.c:369-451 | The argument table is full exactly when the arguments parse, and then holds the parsed values in order. |
| Command.EventMessage | mylife-home-components/src/net_repository.c:325-401 | The handler crashes, ignores, refuses or executes any message exactly as specified, and MessageMeaning says that from the words: the target is compared before the action word is looked at. |
| Command.MessageMeaning | mylife-home-components/src/net_repository.c:325-453 | What any message does, told from its words: it executes if and only if the object is addressed, the action exists, there are as many further words as parameters or more and each is accepted for its type; then each value is what its word stands for. Each of the other reactions has its exact condition too. |
| Command.TokensAreWords | mylife-home-components/src/net_repository.c:342-351 | Successive tokens are the words of the text, its non-empty pieces between spaces. |
| Command.CrashIff | mylife-home-components/src/net_repository.c:342-360 | The daemon crashes exactly on a channel message without a word and on a message addressed to an object with members that has no action word. |
| Command.OneWord | mylife-home-components/src/net_repository.c:342-360 | A one-word channel message crashes the object it names, if it has members, and is ignored by every other. |
| Command.ParamAcceptedIff | mylife-home-components/src/net_repository.c:403-453 | The daemon accepts a token exactly when the core's check accepts it and, for integers, nothing follows the digits. |
| Command.TrailingTextSplitsTheSides | nodejs/mylife-home-core/netobject.js:85-90 | A concrete argument the core lets pass and the daemon refuses. |
| Command.CommandRoundTrip | mylife-home-components/src/net_repository.c:325-453 | A checked, canonical command sent to a channel is executed by exactly the addressed object, with the same action and the same arguments, and ignored by every other. |
| Command.JsRoundTrip | nodejs/mylife-home-core/netobject.js:178-199 | The core's own plugins read a rendered command with the same addressee, action and arguments. |
| Command.JsHearsIff | nodejs/mylife-home-core/netobject.js:178-199 | A plugin of the core hears an action with arguments if and only if the message is the rendering of that, on a channel for a nick of its own and when sent to itself without an address. |
| Watching.NetWatcher.Watch | nodejs/mylife-home-core/netobject.js:417-424 | A remote publication counts every channel and watches the object. |
| Watching.NetWatcher.Unwatch | nodejs/mylife-home-core/netobject.js:438-448 | Its removal undoes both and reports whether the watcher is to be discarded. |
| Watching.NetWatcher.ConnectionClosed | nodejs/mylife-home-core/netobject.js:375-388 | A lost connection sends every watched object offline, in any enumeration order; a second report is ignored. |
| Watching.NetWatcher.Registered | nodejs/mylife-home-core/netobject.js:390-403 | A registered connection joins exactly the counted channels. |
| Watching.ChannelCounts | nodejs/mylife-home-core/netobject.js:245-286 | In every run at all, each watcher's count of a channel is its number of occurrences in the live publications made with that watcher, and its client is in exactly these channels while online and in none while offline. |
| Watching.OldWatchersServeNothing | nodejs/mylife-home-core/netobject.js:279-286 | In every run without repeated ids, all live publications belong to the current watcher. |
| Watching.OfflineMirror | nodejs/mylife-home-core/netobject.js:318-388 | In every run, ids repeated or not, while a watcher is offline every attribute of every object it watches is null. The nick handlers do not look at the connection; that nicks reach registered clients only is a precondition. |
| Watching.OfflineNickIff | nodejs/mylife-home-core/netobject.js:304-341 | Without that precondition: a nick heard offline ends the silence exactly when it names a watched object with an attribute that accepts its first piece. |
| Watching.DiscardedWhenUnused | nodejs/mylife-home-core/netobject.js:279-286 | In every run, a removal that discards the watcher leaves no object, no counted or joined channel and no publication. |
| Watching.StrandsIff | nodejs/mylife-home-core/netobject.js:271-286 | After any run that stranded nothing, ids repeated or not, some order of removals discards the watcher under a live publication if and only if two live publications share an id or the object of one is not watched. |
| Watching.RepublishStrandsIff | nodejs/mylife-home-core/netobject.js:417-448 | From a regular state, publishing an id makes such removals possible if and only if the id is already published. |
| Watching.SharedIdStrands | nodejs/mylife-home-core/netobject.js:271-286 | The shortest such run, for every id, class and channel list: publish twice, remove the first. |
| Watching.PublishMeaning | nodejs/mylife-home-core/netobject.js:417-424 | Publishing watches the object anew at the current watcher, or at a new one that becomes current, with the class given and all attributes null; every other watched object stays as it was. |
| Watching.RemovalMeaning | nodejs/mylife-home-core/netobject.js:279-286 | A removal takes the object from the watcher the publication was made with. The current watcher stays unless that watcher has no other object; then none is current, whichever was. |
| Watching.OldRemovalStrandsNew | nodejs/mylife-home-core/netobject.js:279-286 | A concrete run: a publication left on an old watcher is removed and the newer watcher, which still serves an object, is no longer current. |
| Watching.SecondReport | nodejs/mylife-home-core/netobject.js:375-388 | A second report of a lost connection changes nothing. |
| Watching.OnlineMirror | nodejs/mylife-home-core/netobject.js:304-329 | The nick of a published object is mirrored exactly, and its departure sets every attribute to null. |
| Network.EveryMirrorLags | nodejs/mylife-home-core/netobject.js:288-403 | Any number of publishers, one first-in-first-out wire each, interleaved with publications, removals, lost and new connections: an object a nick was delivered for mirrors its publisher's values before the nicks still on the way, any other watched object is null. |
| Network.DrainedMirrorIsCurrent | nodejs/mylife-home-core/netobject.js:331-341 | Once a publisher's wire is drained, an object that was heard holds the publisher's current values. |
| Schema.TypeEquals | nodejs/mylife-home-core-designer/public/app/component/schemaHelper.js:120-144 | The element-by-element comparison is equality of types. |
| Schema.CheckLinkTypes | nodejs/mylife-home-core-designer/public/app/component/schemaHelper.js:186-192 | Accepts exactly an action that takes nothing or exactly one value of the attribute's type, and raises exactly on a member of the wrong kind; told from the members. |
| Schema.RemovingTouching | nodejs/mylife-home-core-designer/public/app/component/schemaHelper.js:103-109 | Removing a component's links one by one leaves exactly the other links, in order. |
| Schema.TouchingInOrder | nodejs/mylife-home-core-designer/public/app/component/schemaHelper.js:91-100 | Of two links that name the component the earlier one is found first. |
| Schema.Designer.FindLinksFromComponent | nodejs/mylife-home-core-designer/public/app/component/schemaHelper.js:92-101 | Collects exactly the links that touch the component, in order. |
| Schema.Designer.DeleteHardware | nodejs/mylife-home-core-designer/public/app/component/schemaHelper.js:103-118 | Deletes the component and its links from the lists in place. |
| Schema.DeletionMeaning | nodejs/mylife-home-core-designer/public/app/component/schemaHelper.js:91-117 | Deleting a plugin takes out the plugin and exactly the links that name it; the other plugins keep their order. |
| Schema.Designer.LoadHardware | nodejs/mylife-home-core-designer/public/app/component/dataAccess.js:94-168 | The nested loops compute the specified schema, failed links and exception flag. |
| Schema.Designer.OnConnectionCreated | nodejs/mylife-home-core-designer/public/app/component/plumbHelper.js:151-175 | Searches for the connection, checks the types and adds the link. |
| Schema.DrawMeaning | nodejs/mylife-home-core-designer/public/app/component/plumbHelper.js:95-175 | Between colon-free names, drawing adds exactly the drawn link when no link joins the same members and it leads to an action that takes nothing or exactly the attribute's type, and changes nothing otherwise. |
| Schema.ReloadConservesIff | nodejs/mylife-home-core-designer/public/app/component/dataAccess.js:94-168 | A hardware reload puts every prior link exactly once in the schema or among the failed links if and only if, told from the schema and the items alone, no item gives a link that no earlier item made fail two existing members of clashing kinds; otherwise some link is lost. |
| Schema.ReloadKeepsIff | nodejs/mylife-home-core-designer/public/app/component/dataAccess.js:94-168 | A reload that loses no link keeps exactly the links that no item drops and reports exactly the others as failed, told from the schema and the items: an item drops a link of its component when a member is gone, or when the action takes anything else than nothing or the attribute's type. |
| Schema.RecreateOrder | nodejs/mylife-home-core-designer/public/app/component/dataAccess.js:139-163 | When nothing raises, the saved links that fit stand behind the other links and those that do not behind earlier failures, each in the order in which they were saved. |
| Schema.ReloadedHardware | nodejs/mylife-home-core-designer/public/app/component/dataAccess.js:94-168 | After a reload without exception the components that are not listed stand in their order, and behind them the items in theirs; plugins are unchanged. |
| Schema.ReloadRaisesIff | nodejs/mylife-home-core-designer/public/app/component/dataAccess.js:139-163 | An exception ends a reload exactly under that condition: the class of an id after k items is that of the last of them with the id, else the schema's. |
| Schema.ItemConservesIff | nodejs/mylife-home-core-designer/public/app/component/dataAccess.js:139-163 | For one item, the raising case is exactly a link whose two members still exist but are of clashing kinds. |
| Schema.ReloadLeavesOthers | nodejs/mylife-home-core-designer/public/app/component/dataAccess.js:119-164 | The links that touch no reloaded component are unchanged, in order, even when an exception ends the reload. |
| Schema.ReloadKeepsTyped | nodejs/mylife-home-core-designer/public/app/component/dataAccess.js:94-168 | Reloading any list of items raises nothing, conserves the links and keeps the schema well typed when each item keeps the kinds of the same-named members it replaces; the condition reads plugins, hardware and items only. |
| Schema.ChangedKindLosesLink | nodejs/mylife-home-core-designer/public/app/component/dataAccess.js:139-163 | A concrete reload in which an attribute becomes an action and a link is lost. |
| Schema.ReachableSchemas | nodejs/mylife-home-core-designer/public/app/component/schemaHelper.js:67-192 | Every schema reached from an empty one by drawing, creating plugins, deleting and reloading has no duplicate link, and every link leads from an existing attribute to an existing action that takes nothing or exactly that attribute's type. |
| Schema.Apply | nodejs/mylife-home-core-designer/public/app/component/schemaHelper.js:67-118 | Every edit in place (drawing, creating, deleting, reloading) does what the edit does to the value, and a well-typed schema stays well typed. |
| IntrusiveList.List.Add | mylife-home-components/src/list.c:17-34 | Appends the node. |
| IntrusiveList.List.Remove | mylife-home-components/src/list.c:36-52 | Unlinks exactly the given member and clears its links. |
| IntrusiveList.List.Foreach | mylife-home-components/src/list.c:54-61 | Visits the nodes in order up to the first callback that returns 0. |
| IntrusiveList.VisitedIsPrefix | mylife-home-components/src/list.c:54-61 | The visited nodes are a prefix that stops at the first refusal and nowhere else. |
| IntrusiveList.List.Clear | mylife-home-components/src/list.c:63-72 | Terminates with an empty list, having freed every node exactly once, in order and unlinked. |
| IntrusiveList.List.Count | mylife-home-components/src/list.c:79-84 | Counts the nodes. |
| IntrusiveList.List.IsEmpty | mylife-home-components/src/list.c:74-77 | Tells whether the list is empty. |
| Sequences.RemoveAtMembers | mylife-home-components/src/list.c:36-52 | On a list without repetitions, removing a member leaves exactly the other ones, each still once. |
| Sequences.RemoveFirstMeaning | nodejs/mylife-home-core-designer/public/app/tools.js:11-17 | Removing an element from an array takes out its first occurrence and leaves the rest in order. |
| Gpio.Manager.Open | mylife-home-components/src/gpio_manager.c:131-186 | A pin opens exactly when a usage is given, the pin exists, is not open and the type is registered; counts, pins and monitors stay consistent. |
| Gpio.Manager.Close | mylife-home-components/src/gpio_manager.c:188-197 | Closing removes exactly that pin and keeps counts and monitors consistent. |
| Gpio.Manager.SetDirection | mylife-home-components/src/gpio_io.c:163-179 | A direction change keeps the monitor list equal to the open IO pins with direction in. |
| Gpio.Manager.SetValue | mylife-home-components/src/gpio_io.c:139-153 | Refused on inputs, else stored. |
| Gpio.Manager.Unmonitor | mylife-home-components/src/gpio_io.c:213-223 | Removes exactly the pin from the monitor list. |
| Gpio.Manager.Terminate | mylife-home-components/src/gpio_manager.c:121-129 | The termination assertions hold exactly when no pin is open. |
| Gpio.Manager.GpiosDistinct | mylife-home-components/src/gpio_manager.c:80-109 | Open pins use pairwise distinct GPIO numbers. |
| Gpio.PinTableFits | mylife-home-components/src/gpio_manager.c:37-109 | Every listed pin has a GPIO and no two share one. |
| EventLoop.AddMsConserves | mylife-home-components/src/loop.c:275-284 | Adding milliseconds conserves total microseconds and leaves at most one uncarried million. |
| EventLoop.DueTestIsExact | mylife-home-components/src/loop.c:255-266 | Against a normalised time the comparison is exact, the uncarried million included. |
| EventLoop.CompareIsOrderIff | mylife-home-components/src/loop.c:255-266 | On all times with at most a million microseconds the comparison is the order of the times, exactly unless one is an uncarried million and the other the same time carried. |
| EventLoop.UncarriedMillionComparesLess | mylife-home-components/src/loop.c:279-283 | The exception occurs: adding one millisecond can give an uncarried million, which compares as less than the same time carried. |
| EventLoop.Loop.RunPhase | mylife-home-components/src/loop.c:194-246 | A phase walks the copy and calls the handles of its type, undisturbed by what callbacks do to the live list. |
| EventLoop.Loop.Iterate | mylife-home-components/src/loop.c:102-117 | One turn calls exactly what the handles registered at its start are to be called with: each tick once, each due timer once, each listener once to add and once to process, in this order; nothing else is called. |
| EventLoop.PhaseCallsAround | mylife-home-components/src/loop.c:181-246 | Within a phase the calls follow the list order. |
| EventLoop.CallsAreFullTurn | mylife-home-components/src/loop.c:102-246 | From the kinds of the handles: ticks come before timers, timers before the additions of all listeners, these before their processing, each wanted call occurs exactly once and no other call occurs. |
| EventLoop.ServeMeaning | mylife-home-components/src/loop.c:297-357 | Registering appends one handle of its kind under an id no handle has, a timer due its period after the time of registration; unregistering leaves exactly the handles with other ids. |
| EventLoop.RemoveMeaning | mylife-home-components/src/loop.c:353-357 | Unregistering takes the first handle with the id out and leaves the others, before and behind it, in their order; without such a handle it changes nothing. |
| EventLoop.TimerFiresIff | mylife-home-components/src/loop.c:206-222 | A timer fires in an iteration exactly when registration time plus period is not later than the iteration's time; afterwards in every iteration, because the period is only added on the copy. |
| EventLoop.NeverEarly | mylife-home-components/src/loop.c:313-333 | In every run no timer callback comes before registration time plus period. |
| UiMirror.GetAttributeIndex | nodejs/mylife-home-ui/structure.js:70-93 | The counting loop finds the number of attributes before the first member with the name. |
| UiMirror.UiClassMeaning | nodejs/mylife-home-ui/structure.js:39-68 | A component has the class of the first interface type its plugin names, the plugin being the first with the id among those of interface types, and no class otherwise. |
| UiMirror.CompiledRead | nodejs/mylife-home-ui/public/app/net.js:85-108 | After the page heard a component's nick, reading its mirror at the compiled index of an attribute gives the text of that attribute's value. |
| UiMirror.EveryReadIsRight | nodejs/mylife-home-ui/public/app/net.js:42-108 | In every run of several components that join, change and part, with connections lost in between: the page knows exactly the components whose last join or part since the last lost connection is a join, and every attribute of these is read right at its compiled index, as of the last announcement that arrived. |
| UiMirror.Net.PartAll | nodejs/mylife-home-ui/public/app/net.js:42-48 | Leaves nothing joined. |
| Gesture.PendingTimer | nodejs/mylife-home-ui/public/app/uihelper.js:180-240 | In every run a pending timer implies no button held and a non-empty stack, and at most one timer is live. |
| Gesture.ExpiryExecutes | nodejs/mylife-home-ui/public/app/uihelper.js:228-236 | In every run a live timer that expires executes exactly the stack, which is not empty, and leaves an empty stack and no timer; no other expiry does anything. |
| Gesture.OneTimer | nodejs/mylife-home-ui/public/app/uihelper.js:197-236 | A press stops every timer, a release leaves one new timer when a button was held and none otherwise. |
| Gesture.GesturesSpellIff | nodejs/mylife-home-ui/public/app/uihelper.js:208-238 | Executed gestures followed by the stack spell exactly the letters of all completed presses, in order, if and only if no release without a press found letters on the stack. |
| Gesture.AlternatingSpells | nodejs/mylife-home-ui/public/app/uihelper.js:195-240 | For alternating presses and releases, with timers expiring anywhere in between, nothing is lost, reordered or repeated. |

## Left out

- Sockets, the IRC, MPD and HTTP libraries, sysfs, JSON and files: the server is a wire and a set of channels, the data file a map, the kernel's answers are parameters.
- Fixed buffers, allocation failure and integer overflow in C: strings fit and integers are unbounded, so the narrowing of `strtol` to `int` is not modelled. White space is ASCII only.
- `names` events: their payload depends on the library.
- `manager.terminate`: it passes records instead of ids; nothing is claimed about shutdown of the core.
- `connected` listeners: they are never removed with their link; only attribute listeners are counted.
- Plugin types other than hub, light and step relay in cascades; any other component is remote.
- Cascade.Runtime.SetAttribute: the NICK a change sends after its handlers is not part of the cascade; Mirror covers it.
- Command.CommandRoundTrip: empty arguments and integers not written canonically are excluded; ParamAcceptedIff says which the two sides disagree on.
- Mirror.MirrorConsistency: unset attributes, which travel as the text `null`, are excluded.
- Watching.OfflineMirror: link handlers that throw while attributes are set to null are excluded.
- Watching.NetWatcher.SetAttributes: an exception in an assignment ends that event only; that it may end the process is not modelled. Object identity of watched objects is by id.
- Network.EveryMirrorLags: nicks listed by `names` after a join are excluded, so an object is null from publication or reconnection until its publisher's next nick. A departure is heard after all nicks of its publisher.
- Schema.ReloadConservesIff: hardware lists have no repeated id, as the core's listing never has.
- EventLoop.TimerFiresIff: periodicity is not claimed, because the code does not provide it.
- Gpio.Manager.Open: the three drivers never refuse to open, so the branch for a failing driver is absent; PWM parameters and the value callback are not modelled. The pin and type lists are sequences here, their pointers are IntrusiveList's subject.
- Schema.Designer.CreatePlugin: parameters and screen positions are not modelled; the generated id is a parameter.
- UiMirror.GetAttributeIndex: the outer pass that writes the index into windows and texts is left out, it only calls this function.
- Gesture.InputManager.Up: when a timer expires is left to the environment; which gesture a configuration binds is not modelled.
- CoreManager.Manager.Deploy: the two HTTP services run one deployment without other requests in between.
